/**
 * The query side of the media library: the vlc_ml_list_queries layout and
 * the vlc_ml_list_* / vlc_ml_count_* wrappers of include/vlc_media_library.h,
 * and the routing done by MediaLibrary::List in
 * modules/misc/medialibrary/medialib.cpp (parameter translation, the
 * rewriting of the six "children of a parent" queries, metadataType).
 */
module MediaLibrary {
  import opened Wrappers

  /** The families of vlc_ml_list_queries, in declaration order; each has a LIST and a COUNT code. */
  datatype Listing =
    | Videos | Audios | Albums | Genres | Artists | Shows
    | AlbumTracks | AlbumArtists | ArtistAlbums | ArtistTracks
    | GenreArtists | GenreTracks | GenreAlbums | ShowEpisodes | MediaLabels
    | MediaOf | ArtistsOf | AlbumsOf

  /** The enumerator VLC_ML_LIST_<l>, as numbered by its position in the enum. */
  function ListCode(l: Listing): nat
  {
    match l
    case Videos => 0
    case Audios => 2
    case Albums => 4
    case Genres => 6
    case Artists => 8
    case Shows => 10
    case AlbumTracks => 12
    case AlbumArtists => 14
    case ArtistAlbums => 16
    case ArtistTracks => 18
    case GenreArtists => 20
    case GenreTracks => 22
    case GenreAlbums => 24
    case ShowEpisodes => 26
    case MediaLabels => 28
    case MediaOf => 30
    case ArtistsOf => 32
    case AlbumsOf => 34
  }

  /** The enumerator VLC_ML_COUNT_<l>. */
  function CountCode(l: Listing): nat
  {
    match l
    case Videos => 1
    case Audios => 3
    case Albums => 5
    case Genres => 7
    case Artists => 9
    case Shows => 11
    case AlbumTracks => 13
    case AlbumArtists => 15
    case ArtistAlbums => 17
    case ArtistTracks => 19
    case GenreArtists => 21
    case GenreTracks => 23
    case GenreAlbums => 25
    case ShowEpisodes => 27
    case MediaLabels => 29
    case MediaOf => 31
    case ArtistsOf => 33
    case AlbumsOf => 35
  }

  /** A query code read back: which family, and whether it lists or counts. */
  datatype Query = Query(listing: Listing, isCount: bool)

  const Families: seq<Listing> := [
    Videos, Audios, Albums, Genres, Artists, Shows,
    AlbumTracks, AlbumArtists, ArtistAlbums, ArtistTracks,
    GenreArtists, GenreTracks, GenreAlbums, ShowEpisodes, MediaLabels,
    MediaOf, ArtistsOf, AlbumsOf
  ]

  function Code(q: Query): nat
  {
    if q.isCount then CountCode(q.listing) else ListCode(q.listing)
  }

  /** The enumerator a code stands for, if any. */
  function QueryOf(code: int): (r: Option<Query>)
    ensures r.Some? <==> 0 <= code < 2 * |Families|
  {
    if 0 <= code < 2 * |Families| then Some(Query(Families[code / 2], code % 2 == 1))
    else None
  }

  /**
   * The layout of vlc_ml_list_queries: every LIST code is directly
   * followed by its COUNT code, and the codes name the enumerators
   * one-to-one.
   */
  lemma QueryLayout(q: Query)
    ensures CountCode(q.listing) == ListCode(q.listing) + 1
    ensures QueryOf(Code(q)) == Some(q)
  {
    var i := ListCode(q.listing) / 2;
    assert Families[i] == q.listing;
  }

  lemma CodeInjective(q: Query, r: Query)
    ensures Code(q) == Code(r) <==> q == r
  {
    QueryLayout(q);
    QueryLayout(r);
  }

  const Success: int := 0

  /** What pf_list answers: a status and, on success, the value written through the out-pointer. */
  datatype Reply<T> = Reply(status: int, value: T)

  /** The vlc_ml_query_params_t a caller passes; the uint32 fields are unbounded here. */
  datatype QueryParams = QueryParams(pattern: Option<string>, sort: int, nbResults: nat, offset: nat, desc: bool)

  /** One pf_list call: the query code, the parameters (None for NULL) and the extra arguments. */
  datatype Request = Request(query: nat, params: Option<QueryParams>, args: seq<int>)

  /**
   * The shape shared by every vlc_ml_list_* wrapper: NULL unless pf_list
   * succeeds, the produced list otherwise.
   */
  function ListVia<T>(pfList: Request -> Reply<T>, req: Request): (r: Option<T>)
    ensures r.None? <==> pfList(req).status != Success
    ensures r.Some? ==> r.value == pfList(req).value
  {
    var reply := pfList(req);
    if reply.status != Success then None else Some(reply.value)
  }

  /** The shape shared by every vlc_ml_count_* wrapper: 0 unless pf_list succeeds. */
  function CountVia(pfList: Request -> Reply<nat>, req: Request): (n: nat)
    ensures pfList(req).status != Success ==> n == 0
    ensures pfList(req).status == Success ==> n == pfList(req).value
  {
    var reply := pfList(req);
    if reply.status != Success then 0 else reply.value
  }

  /** The request vlc_ml_list_<l> sends: every list wrapper sends its own LIST code. */
  function ListRequest(l: Listing, params: Option<QueryParams>, args: seq<int>): (req: Request)
    ensures QueryOf(req.query) == Some(Query(l, false))
  {
    QueryLayout(Query(l, false));
    Request(ListCode(l), params, args)
  }

  /**
   * The code vlc_ml_count_<l> sends as written: vlc_ml_count_show_episodes
   * sends VLC_ML_COUNT_GENRE_ALBUMS and vlc_ml_count_media_labels sends
   * VLC_ML_LIST_MEDIA_LABELS; every other count wrapper sends its own code.
   */
  function CountCodeAsWritten(l: Listing): nat
  {
    if l == ShowEpisodes then CountCode(GenreAlbums)
    else if l == MediaLabels then ListCode(MediaLabels)
    else CountCode(l)
  }

  /** Exactly two count wrappers send a code other than their own COUNT code. */
  lemma CountCodeAsWrittenMismatch(l: Listing)
    ensures CountCodeAsWritten(l) != CountCode(l) <==> l == ShowEpisodes || l == MediaLabels
    ensures QueryOf(CountCodeAsWritten(ShowEpisodes)) == Some(Query(GenreAlbums, true))
    ensures QueryOf(CountCodeAsWritten(MediaLabels)) == Some(Query(MediaLabels, false))
  {
    QueryLayout(Query(GenreAlbums, true));
    QueryLayout(Query(MediaLabels, false));
    CodeInjective(Query(l, true), Query(GenreAlbums, true));
    CodeInjective(Query(l, true), Query(MediaLabels, false));
  }

  /** The request vlc_ml_count_<l> is meant to send: the COUNT code paired with its list wrapper's. */
  function CountRequest(l: Listing, params: Option<QueryParams>, args: seq<int>): (req: Request)
    ensures QueryOf(req.query) == Some(Query(l, true))
    ensures req.query == ListRequest(l, params, args).query + 1
    ensures req.params == params && req.args == args
  {
    QueryLayout(Query(l, true));
    Request(CountCode(l), params, args)
  }

  /** vlc_ml_list_<l>: the list pf_list produces for that family, or NULL. */
  function MlList<T>(pfList: Request -> Reply<T>, l: Listing, params: Option<QueryParams>, args: seq<int>): (r: Option<T>)
    ensures r.None? <==> pfList(ListRequest(l, params, args)).status != Success
    ensures r.Some? ==> r.value == pfList(ListRequest(l, params, args)).value
  {
    ListVia(pfList, ListRequest(l, params, args))
  }

  /**
   * vlc_ml_count_<l> as written: the count pf_list produces for the code
   * the wrapper sends, or 0.
   */
  function MlCount(pfList: Request -> Reply<nat>, l: Listing, params: Option<QueryParams>, args: seq<int>): (n: nat)
    ensures pfList(Request(CountCodeAsWritten(l), params, args)).status != Success ==> n == 0
    ensures pfList(Request(CountCodeAsWritten(l), params, args)).status == Success
        ==> n == pfList(Request(CountCodeAsWritten(l), params, args)).value
  {
    CountVia(pfList, Request(CountCodeAsWritten(l), params, args))
  }

  /** vlc_ml_count_<l> as intended: the count of the family's own COUNT query, or 0. */
  function MlCountIntended(pfList: Request -> Reply<nat>, l: Listing, params: Option<QueryParams>, args: seq<int>): (n: nat)
    ensures pfList(CountRequest(l, params, args)).status != Success ==> n == 0
    ensures pfList(CountRequest(l, params, args)).status == Success ==> n == pfList(CountRequest(l, params, args)).value
  {
    CountVia(pfList, CountRequest(l, params, args))
  }

  /** Every count wrapper but the show-episodes and media-labels ones counts what it is meant to. */
  lemma MlCountAgrees(pfList: Request -> Reply<nat>, l: Listing, params: Option<QueryParams>, args: seq<int>)
    requires l != ShowEpisodes && l != MediaLabels
    ensures MlCount(pfList, l, params, args) == MlCountIntended(pfList, l, params, args)
  {
    CountCodeAsWrittenMismatch(l);
  }

  /** vlc_ml_parent_type. */
  const ParentAlbum: int := 0
  const ParentArtist: int := 1
  const ParentShow: int := 2
  const ParentGenre: int := 3

  /** The entity kind a family lists. */
  datatype Entity = Media | Album | Artist | Genre | Show | Label

  function Lists(l: Listing): Entity
  {
    match l
    case Videos => Media
    case Audios => Media
    case Albums => Album
    case Genres => Genre
    case Artists => Artist
    case Shows => Show
    case AlbumTracks => Media
    case AlbumArtists => Artist
    case ArtistAlbums => Album
    case ArtistTracks => Media
    case GenreArtists => Artist
    case GenreTracks => Media
    case GenreAlbums => Album
    case ShowEpisodes => Media
    case MediaLabels => Label
    case MediaOf => Media
    case ArtistsOf => Artist
    case AlbumsOf => Album
  }

  /** The parent type whose id a family takes as its argument, if any. */
  function OwnerType(l: Listing): Option<int>
  {
    match l
    case AlbumTracks => Some(ParentAlbum)
    case AlbumArtists => Some(ParentAlbum)
    case ArtistAlbums => Some(ParentArtist)
    case ArtistTracks => Some(ParentArtist)
    case GenreArtists => Some(ParentGenre)
    case GenreTracks => Some(ParentGenre)
    case GenreAlbums => Some(ParentGenre)
    case ShowEpisodes => Some(ParentShow)
    case _ => None
  }

  /** The six codes MediaLibrary::List rewrites before dispatching. */
  predicate IsChildQuery(code: int)
  {
    || code == ListCode(MediaOf) || code == CountCode(MediaOf)
    || code == ListCode(ArtistsOf) || code == CountCode(ArtistsOf)
    || code == ListCode(AlbumsOf) || code == CountCode(AlbumsOf)
  }

  /** The (query, parent type) pairs filterListChildrenQuery handles as written; all others are unreachable. */
  predicate ChildSupportedAsWritten(code: int, parentType: int)
  {
    || ((code == ListCode(MediaOf) || code == CountCode(MediaOf)) && ParentAlbum <= parentType <= ParentGenre)
    || ((code == ListCode(AlbumsOf) || code == CountCode(AlbumsOf)) && (parentType == ParentArtist || parentType == ParentGenre))
    || ((code == ListCode(ArtistsOf) || code == CountCode(ArtistsOf)) && (parentType == ParentAlbum || parentType == ParentArtist))
  }

  /**
   * filterListChildrenQuery as written: the media of an artist are routed
   * to the album-tracks query, and the artists of an artist to the
   * genre-artists query.
   */
  function FilterListChildrenQueryAsWritten(code: int, parentType: int): (r: nat)
    requires ChildSupportedAsWritten(code, parentType)
    ensures r < ListCode(MediaOf)
    ensures r % 2 == code % 2
  {
    if code == ListCode(MediaOf) then
      if parentType == ParentAlbum then ListCode(AlbumTracks)
      else if parentType == ParentArtist then ListCode(AlbumTracks)
      else if parentType == ParentShow then ListCode(ShowEpisodes)
      else ListCode(GenreTracks)
    else if code == CountCode(MediaOf) then
      if parentType == ParentAlbum then CountCode(AlbumTracks)
      else if parentType == ParentArtist then CountCode(AlbumTracks)
      else if parentType == ParentShow then CountCode(ShowEpisodes)
      else CountCode(GenreTracks)
    else if code == ListCode(AlbumsOf) then
      if parentType == ParentArtist then ListCode(ArtistAlbums) else ListCode(GenreAlbums)
    else if code == CountCode(AlbumsOf) then
      if parentType == ParentArtist then CountCode(ArtistAlbums) else CountCode(GenreAlbums)
    else if code == ListCode(ArtistsOf) then
      if parentType == ParentAlbum then ListCode(AlbumArtists) else ListCode(GenreArtists)
    else
      if parentType == ParentAlbum then CountCode(AlbumArtists) else CountCode(GenreArtists)
  }

  /**
   * As written, the COUNT variant of each rewritten query is the COUNT
   * counterpart of the LIST variant, one code further in the enum.
   */
  lemma FilterAsWrittenPairs(l: Listing, parentType: int)
    requires l == MediaOf || l == AlbumsOf || l == ArtistsOf
    requires ChildSupportedAsWritten(ListCode(l), parentType)
    ensures ChildSupportedAsWritten(CountCode(l), parentType)
    ensures FilterListChildrenQueryAsWritten(CountCode(l), parentType)
         == FilterListChildrenQueryAsWritten(ListCode(l), parentType) + 1
  {
  }

  /**
   * As written, two routes ask for the wrong parent: the media of an artist
   * and the artists of an artist both go to a query keyed by another
   * parent type, so the artist id is read as an album id or a genre id.
   */
  lemma FilterAsWrittenWrongParent()
    ensures OwnerType(QueryOf(FilterListChildrenQueryAsWritten(ListCode(MediaOf), ParentArtist)).value.listing)
         == Some(ParentAlbum)
    ensures OwnerType(QueryOf(FilterListChildrenQueryAsWritten(ListCode(ArtistsOf), ParentArtist)).value.listing)
         == Some(ParentGenre)
  {
    QueryLayout(Query(AlbumTracks, false));
    QueryLayout(Query(GenreArtists, false));
  }

  /** The intended pairs: the media of any parent, the albums of an artist or a genre, the artists of an album or a genre. */
  predicate ChildSupported(code: int, parentType: int)
  {
    || ((code == ListCode(MediaOf) || code == CountCode(MediaOf)) && ParentAlbum <= parentType <= ParentGenre)
    || ((code == ListCode(AlbumsOf) || code == CountCode(AlbumsOf)) && (parentType == ParentArtist || parentType == ParentGenre))
    || ((code == ListCode(ArtistsOf) || code == CountCode(ArtistsOf)) && (parentType == ParentAlbum || parentType == ParentGenre))
  }

  /** The family that lists the children of one parent type. */
  function ChildListing(of: Listing, parentType: int): Listing
    requires of == MediaOf || of == AlbumsOf || of == ArtistsOf
  {
    if of == MediaOf then
      if parentType == ParentAlbum then AlbumTracks
      else if parentType == ParentArtist then ArtistTracks
      else if parentType == ParentShow then ShowEpisodes
      else GenreTracks
    else if of == AlbumsOf then
      if parentType == ParentArtist then ArtistAlbums else GenreAlbums
    else
      if parentType == ParentAlbum then AlbumArtists else GenreArtists
  }

  /** filterListChildrenQuery with both routes keyed by the parent that was asked for. */
  function FilterListChildrenQuery(code: int, parentType: int): (r: nat)
    requires ChildSupported(code, parentType)
    ensures r < ListCode(MediaOf)
    ensures r % 2 == code % 2
  {
    if code == ListCode(MediaOf) then ListCode(ChildListing(MediaOf, parentType))
    else if code == CountCode(MediaOf) then CountCode(ChildListing(MediaOf, parentType))
    else if code == ListCode(AlbumsOf) then ListCode(ChildListing(AlbumsOf, parentType))
    else if code == CountCode(AlbumsOf) then CountCode(ChildListing(AlbumsOf, parentType))
    else if code == ListCode(ArtistsOf) then ListCode(ChildListing(ArtistsOf, parentType))
    else CountCode(ChildListing(ArtistsOf, parentType))
  }

  /**
   * Every supported rewrite keeps LIST or COUNT, lists the same kind of
   * entity, is keyed by the parent type that was asked for, and pairs its
   * COUNT variant with its LIST variant.
   */
  lemma FilterRoutesToParent(of: Listing, isCount: bool, parentType: int)
    requires of == MediaOf || of == AlbumsOf || of == ArtistsOf
    requires ChildSupported(Code(Query(of, isCount)), parentType)
    ensures FilterListChildrenQuery(Code(Query(of, isCount)), parentType)
         == Code(Query(ChildListing(of, parentType), isCount))
    ensures Lists(ChildListing(of, parentType)) == Lists(of)
    ensures OwnerType(ChildListing(of, parentType)) == Some(parentType)
  {
  }

  /** For every supported parent, the COUNT rewrite is the COUNT counterpart of the LIST rewrite. */
  lemma FilterPairs(of: Listing, parentType: int)
    requires of == MediaOf || of == AlbumsOf || of == ArtistsOf
    requires ChildSupported(ListCode(of), parentType)
    ensures ChildSupported(CountCode(of), parentType)
    ensures FilterListChildrenQuery(CountCode(of), parentType)
         == FilterListChildrenQuery(ListCode(of), parentType) + 1
  {
    QueryLayout(Query(ChildListing(of, parentType), false));
  }

  /**
   * The first switch of MediaLibrary::List as written: the six child
   * queries are rewritten by filterListChildrenQuery, every other code
   * passes through unchanged.
   */
  function RouteQuery(code: int, parentType: int): (r: int)
    requires IsChildQuery(code) ==> ChildSupportedAsWritten(code, parentType)
    ensures !IsChildQuery(code) ==> r == code
    ensures IsChildQuery(code) ==> !IsChildQuery(r) && QueryOf(r).Some? && OwnerType(QueryOf(r).value.listing).Some?
  {
    if IsChildQuery(code) then
      RouteAsWrittenKeyed(code, parentType);
      FilterListChildrenQueryAsWritten(code, parentType)
    else code
  }

  /** A query of a family keyed by a parent is not itself a child query, and reads back from its code. */
  lemma KeyedTarget(l: Listing, isCount: bool)
    requires OwnerType(l).Some?
    ensures !IsChildQuery(Code(Query(l, isCount)))
    ensures QueryOf(Code(Query(l, isCount))) == Some(Query(l, isCount))
  {
    QueryLayout(Query(l, isCount));
  }

  /** As written, every handled child query becomes a query of a family keyed by some parent. */
  lemma RouteAsWrittenKeyed(code: int, parentType: int)
    requires IsChildQuery(code) && ChildSupportedAsWritten(code, parentType)
    ensures var r := FilterListChildrenQueryAsWritten(code, parentType);
      !IsChildQuery(r) && QueryOf(r).Some? && OwnerType(QueryOf(r).value.listing).Some?
  {
    var isCount := code % 2 == 1;
    var l :=
      if code == ListCode(MediaOf) || code == CountCode(MediaOf) then
        if parentType == ParentAlbum || parentType == ParentArtist then AlbumTracks
        else if parentType == ParentShow then ShowEpisodes
        else GenreTracks
      else if code == ListCode(AlbumsOf) || code == CountCode(AlbumsOf) then
        if parentType == ParentArtist then ArtistAlbums else GenreAlbums
      else
        if parentType == ParentAlbum then AlbumArtists else GenreArtists;
    assert FilterListChildrenQueryAsWritten(code, parentType) == Code(Query(l, isCount));
    KeyedTarget(l, isCount);
  }

  /** The same switch with the corrected rewrite: a child query goes to the listing keyed by the parent asked for. */
  function RouteQueryIntended(code: int, parentType: int): (r: int)
    requires IsChildQuery(code) ==> ChildSupported(code, parentType)
    ensures !IsChildQuery(code) ==> r == code
    ensures IsChildQuery(code) ==> !IsChildQuery(r) && QueryOf(r).Some? && OwnerType(QueryOf(r).value.listing) == Some(parentType)
  {
    if IsChildQuery(code) then
      RouteKeyed(code, parentType);
      FilterListChildrenQuery(code, parentType)
    else code
  }

  /** Every supported child query becomes a query of the family keyed by the parent asked for. */
  lemma RouteKeyed(code: int, parentType: int)
    requires IsChildQuery(code) && ChildSupported(code, parentType)
    ensures var r := FilterListChildrenQuery(code, parentType);
      !IsChildQuery(r) && QueryOf(r).Some? && OwnerType(QueryOf(r).value.listing) == Some(parentType)
  {
    var of :=
      if code == ListCode(MediaOf) || code == CountCode(MediaOf) then MediaOf
      else if code == ListCode(AlbumsOf) || code == CountCode(AlbumsOf) then AlbumsOf
      else ArtistsOf;
    var isCount := code % 2 == 1;
    assert Code(Query(of, isCount)) == code;
    FilterRoutesToParent(of, isCount, parentType);
    KeyedTarget(ChildListing(of, parentType), isCount);
  }

  /** medialibrary::SortingCriteria; its zero value, which p{} holds, is Default. */
  datatype Criteria =
    | Default | Alpha | Duration | InsertionDate | LastModificationDate | ReleaseDate
    | FileSize | ArtistOrder | PlayCount | AlbumOrder | Filename | TrackNumber

  /** vlc_ml_sorting_criteria_t. */
  const SortingDefault: int := 0
  const SortingAlpha: int := 1
  const SortingDuration: int := 2
  const SortingInsertionDate: int := 3
  const SortingLastModificationDate: int := 4
  const SortingReleaseDate: int := 5
  const SortingFileSize: int := 6
  const SortingArtist: int := 7
  const SortingPlayCount: int := 8
  const SortingAlbum: int := 9
  const SortingFilename: int := 10
  const SortingTrackNumber: int := 11

  /** The VLC_ML_SORTING_* value of the same name as a criterion. */
  function VlcSorting(c: Criteria): int
  {
    match c
    case Default => SortingDefault
    case Alpha => SortingAlpha
    case Duration => SortingDuration
    case InsertionDate => SortingInsertionDate
    case LastModificationDate => SortingLastModificationDate
    case ReleaseDate => SortingReleaseDate
    case FileSize => SortingFileSize
    case ArtistOrder => SortingArtist
    case PlayCount => SortingPlayCount
    case AlbumOrder => SortingAlbum
    case Filename => SortingFilename
    case TrackNumber => SortingTrackNumber
  }

  /** The sort translation of MediaLibrary::List; an unknown value keeps the zero default. */
  function SortCriterion(sort: int): (c: Criteria)
    ensures c != Default ==> VlcSorting(c) == sort
    ensures c == Default <==> sort == SortingDefault || !(SortingDefault <= sort <= SortingTrackNumber)
  {
    if sort == SortingDefault then Default
    else if sort == SortingAlpha then Alpha
    else if sort == SortingDuration then Duration
    else if sort == SortingInsertionDate then InsertionDate
    else if sort == SortingLastModificationDate then LastModificationDate
    else if sort == SortingReleaseDate then ReleaseDate
    else if sort == SortingFileSize then FileSize
    else if sort == SortingArtist then ArtistOrder
    else if sort == SortingPlayCount then PlayCount
    else if sort == SortingAlbum then AlbumOrder
    else if sort == SortingFilename then Filename
    else if sort == SortingTrackNumber then TrackNumber
    else Default
  }

  /**
   * Each VLC_ML_SORTING_* value maps to the criterion of the same name,
   * and any value outside the enum to Default.
   */
  lemma SortCriterionNames(c: Criteria, sort: int)
    ensures SortCriterion(VlcSorting(c)) == c
    ensures SortCriterion(sort) != Default ==> VlcSorting(SortCriterion(sort)) == sort
    ensures !(SortingDefault <= sort <= SortingTrackNumber) ==> SortCriterion(sort) == Default
  {
  }

  /** medialibrary::QueryParameters as List fills it in. */
  datatype MlParams = MlParams(sort: Criteria, desc: bool)

  /**
   * The parameter block of MediaLibrary::List, filled field by field: with
   * NULL parameters nothing is passed and the limit and offset are 0.
   * The pattern is not passed on.
   */
  method TranslateParams(params: Option<QueryParams>) returns (mlParams: Option<MlParams>, nbItems: nat, offset: nat)
    ensures params.None? ==> mlParams.None? && nbItems == 0 && offset == 0
    ensures params.Some? ==>
      && mlParams == Some(MlParams(SortCriterion(params.value.sort), params.value.desc))
      && nbItems == params.value.nbResults && offset == params.value.offset
  {
    var p := MlParams(Default, false);
    mlParams := None;
    nbItems := 0;
    offset := 0;
    if params.Some? {
      p := p.(desc := params.value.desc);
      p := p.(sort := SortCriterion(params.value.sort));
      nbItems := params.value.nbResults;
      offset := params.value.offset;
      mlParams := Some(p);
    }
  }

  /** medialibrary::IMedia::MetadataType. */
  datatype MetadataType =
    | Rating | Progress | Speed | Title | Chapter | Program | Seen | VideoTrack
    | AspectRatio | Zoom | Crop | Deinterlace | VideoFilter | AudioTrack | Gain
    | AudioDelay | SubtitleTrack | SubtitleDelay | ApplicationSpecific

  /** The vlc_ml_playback_pref enumerators, in declaration order, by the metadata type of the same name. */
  const PlaybackPrefs: seq<MetadataType> := [
    Rating, Progress, Speed, Title, Chapter, Program, Seen, VideoTrack,
    AspectRatio, Zoom, Crop, Deinterlace, VideoFilter, AudioTrack, Gain,
    AudioDelay, SubtitleTrack, SubtitleDelay, ApplicationSpecific
  ]

  /** The enumerator VLC_ML_PLAYBACK_PREF_<t>. */
  function PlaybackPref(t: MetadataType): nat
  {
    match t
    case Rating => 0
    case Progress => 1
    case Speed => 2
    case Title => 3
    case Chapter => 4
    case Program => 5
    case Seen => 6
    case VideoTrack => 7
    case AspectRatio => 8
    case Zoom => 9
    case Crop => 10
    case Deinterlace => 11
    case VideoFilter => 12
    case AudioTrack => 13
    case Gain => 14
    case AudioDelay => 15
    case SubtitleTrack => 16
    case SubtitleDelay => 17
    case ApplicationSpecific => 18
  }

  /** metadataType: any other value is unreachable. */
  function MetadataTypeOf(meta: int): (t: MetadataType)
    requires 0 <= meta < |PlaybackPrefs|
    ensures PlaybackPref(t) == meta
  {
    PlaybackPrefs[meta]
  }

  /** Each playback preference maps to the metadata type of the same name, one to one. */
  lemma MetadataTypeRoundTrip(t: MetadataType, meta: int)
    ensures PlaybackPref(t) < |PlaybackPrefs| && MetadataTypeOf(PlaybackPref(t)) == t
    ensures 0 <= meta < |PlaybackPrefs| ==> PlaybackPref(MetadataTypeOf(meta)) == meta
  {
  }
}
