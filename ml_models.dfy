/**
 * The Qt list models of the media center
 * (modules/gui/qt/components/mediacenter): MLBaseModel's query parameters
 * and sort role, the paged album, artist and album-track models, the genre
 * model that reloads everything, and the MLParentId value type of
 * mlqmltypes.hpp. The media library itself is reached through the
 * requests the models send and the replies they are given.
 */
module MediaLibraryModels {
  import opened Wrappers
  import opened MediaLibrary

  /** Qt::UserRole: the model roles are numbered from UserRole + 1. */
  const UserRole: int := 0x0100

  /** The concrete models, each overriding MLBaseModel's virtuals. */
  datatype ModelKind = AlbumModel | ArtistModel | AlbumTrackModel | GenreModel

  /** The number of roles the model's roleNames declares. */
  function RoleCount(kind: ModelKind): nat
  {
    match kind
    case AlbumModel => 8
    case ArtistModel => 5
    case AlbumTrackModel => 4
    case GenreModel => 6
  }

  /** The number of those roles, from the first on, that data answers. */
  function DataRoleCount(kind: ModelKind): (n: nat)
    ensures n <= RoleCount(kind)
  {
    if kind == GenreModel then 3 else RoleCount(kind)
  }

  /**
   * roleToCriteria of each model: albums sort by title, release year, main
   * artist and duration; artists and genres by name; album tracks by title,
   * number and duration; every other role by the default order.
   */
  function RoleToCriteria(kind: ModelKind, role: int): (sort: int)
    ensures sort != SortingDefault ==> UserRole < role <= UserRole + RoleCount(kind)
  {
    match kind
    case AlbumModel =>
      if role == UserRole + 2 then SortingAlpha
      else if role == UserRole + 3 then SortingReleaseDate
      else if role == UserRole + 6 then SortingArtist
      else if role == UserRole + 8 then SortingDuration
      else SortingDefault
    case ArtistModel =>
      if role == UserRole + 2 then SortingAlpha else SortingDefault
    case AlbumTrackModel =>
      if role == UserRole + 1 then SortingAlpha
      else if role == UserRole + 3 then SortingTrackNumber
      else if role == UserRole + 4 then SortingDuration
      else SortingDefault
    case GenreModel =>
      if role == UserRole + 2 then SortingAlpha else SortingDefault
  }

  /** Every model sorts by name or title alphabetically, and by nothing else alphabetically. */
  lemma RoleToCriteriaAlpha(kind: ModelKind, role: int)
    ensures RoleToCriteria(kind, role) == SortingAlpha
        <==> role == UserRole + (if kind == AlbumTrackModel then 1 else 2)
  {
  }

  /** The album role names of MLAlbumModel::roleNames. */
  function AlbumRoleName(role: int): Option<string>
  {
    if role == UserRole + 1 then Some("id")
    else if role == UserRole + 2 then Some("title")
    else if role == UserRole + 3 then Some("release_year")
    else if role == UserRole + 4 then Some("shortsummary")
    else if role == UserRole + 5 then Some("cover")
    else if role == UserRole + 6 then Some("main_artist")
    else if role == UserRole + 7 then Some("nb_tracks")
    else if role == UserRole + 8 then Some("duration")
    else None
  }

  /** MLAlbumModel's m_names_to_criteria table. */
  const NamesToCriteria: map<string, int> := map[
    "id" := SortingDefault,
    "title" := SortingAlbum,
    "release_year" := SortingReleaseDate,
    "main_artist" := SortingArtist,
    "duration" := SortingDuration
  ]

  /** nameToCriteria: the table's entry, or the default order for a name it lacks. */
  function NameToCriteria(name: string): (sort: int)
    ensures name !in NamesToCriteria ==> sort == SortingDefault
  {
    if name in NamesToCriteria then NamesToCriteria[name] else SortingDefault
  }

  /**
   * The name table and the role switch agree on every album role except
   * the title, which the names sort by album and the roles alphabetically.
   */
  lemma NameAndRoleCriteria(role: int)
    requires AlbumRoleName(role).Some?
    ensures role != UserRole + 2 ==>
      NameToCriteria(AlbumRoleName(role).value) == RoleToCriteria(AlbumModel, role)
    ensures NameToCriteria("title") == SortingAlbum && RoleToCriteria(AlbumModel, UserRole + 2) == SortingAlpha
  {
  }

  /** A QModelIndex: invalid, or a row. */
  datatype ModelIndex = Invalid | Row(row: int)

  /** What getItem yields: NULL, the item, or std::vector::at's out_of_range exception. */
  datatype ItemLookup<T> = Null | Found(item: T) | OutOfRange

  /** What data yields: an empty QVariant, the field of an item for a role, or the exception of getItem. */
  datatype DataValue<T> = Empty | Field(item: T, role: int) | Throws

  /** The query parameters both MLBaseModel constructors set up. */
  function InitialParams(): (p: QueryParams)
    ensures p.offset == 0 && p.nbResults == 20 && p.pattern.None?
    ensures !p.desc && p.sort == SortingDefault
  {
    QueryParams(None, SortingDefault, 20, 0, false)
  }

  /** The family a model lists, which is all of them when the parent id is 0, the children of the parent otherwise. */
  function FetchListing(kind: ModelKind, parentId: int): Listing
  {
    match kind
    case AlbumModel => if parentId == 0 then Albums else AlbumsOf
    case ArtistModel => if parentId == 0 then Artists else ArtistsOf
    case AlbumTrackModel => if parentId == 0 then Audios else MediaOf
    case GenreModel => Genres
  }

  function FetchArgs(kind: ModelKind, parentType: int, parentId: int): seq<int>
  {
    if kind == GenreModel || parentId == 0 then [] else [parentType, parentId]
  }

  /** The list request fetchMoreInner (or reload) sends. */
  function FetchRequest(kind: ModelKind, parentType: int, parentId: int, params: QueryParams): (r: Request)
    ensures QueryOf(r.query).Some? && !QueryOf(r.query).value.isCount
    ensures r.params == Some(params)
  {
    ListRequest(FetchListing(kind, parentId), Some(params), FetchArgs(kind, parentType, parentId))
  }

  /** The count request countTotalElements sends. */
  function CountTotalRequest(kind: ModelKind, parentType: int, parentId: int, params: QueryParams): (r: Request)
    requires kind != GenreModel
    ensures QueryOf(r.query).Some? && QueryOf(r.query).value.isCount
    ensures r.params == Some(params)
  {
    CountRequest(FetchListing(kind, parentId), Some(params), FetchArgs(kind, parentType, parentId))
  }

  /**
   * A model with a parent sends a child query, which MediaLibrary::List
   * rewrites by the parent type and id passed after it; the genre model
   * and a root model never do.
   */
  lemma FetchChildQuery(kind: ModelKind, parentType: int, parentId: int, params: QueryParams)
    ensures var f := FetchRequest(kind, parentType, parentId, params);
      && (IsChildQuery(f.query) <==> kind != GenreModel && parentId != 0)
      && (IsChildQuery(f.query) ==> f.args == [parentType, parentId])
  {
  }

  /** The same for the count request of countTotalElements. */
  lemma CountChildQuery(kind: ModelKind, parentType: int, parentId: int, params: QueryParams)
    requires kind != GenreModel
    ensures var c := CountTotalRequest(kind, parentType, parentId, params);
      && (IsChildQuery(c.query) <==> parentId != 0)
      && (IsChildQuery(c.query) ==> c.args == [parentType, parentId])
  {
  }

  /**
   * Fetching and counting make the same choice: the count request is the
   * COUNT counterpart of the list request, with the same parameters and
   * arguments, and it names that family's COUNT enumerator.
   */
  lemma FetchCountAgree(kind: ModelKind, parentType: int, parentId: int, params: QueryParams)
    requires kind != GenreModel
    ensures var f := FetchRequest(kind, parentType, parentId, params);
      var c := CountTotalRequest(kind, parentType, parentId, params);
      && c.query == f.query + 1 && c.params == f.params && c.args == f.args
      && QueryOf(c.query) == Some(Query(QueryOf(f.query).value.listing, true))
  {
  }

  /** How far fetchMoreInner moves the offset after a page of `got` items. */
  function OffsetStep(kind: ModelKind, params: QueryParams, got: nat): nat
  {
    match kind
    case AlbumModel => got
    case ArtistModel => 20
    case AlbumTrackModel => params.nbResults
    case GenreModel => 0
  }

  /**
   * A media-center list model: the state MLBaseModel and the concrete
   * models keep. The ghost count of fetches since the last clear states
   * the artist and album-track offset invariants.
   */
  class MLModel<T> {
    const kind: ModelKind
    var parentType: int
    var parentId: int
    var sortRole: int
    var params: QueryParams
    var items: seq<T>
    var totalCount: nat
    ghost var fetches: nat

    /**
     * Each pager's offset invariant: albums advance by what came back,
     * artists by 20 per fetch, album tracks by the page size per fetch.
     */
    ghost predicate Valid()
      reads this
    {
      match kind
      case AlbumModel => params.offset == |items|
      case ArtistModel => params.offset == 20 * fetches
      case AlbumTrackModel => params.offset == params.nbResults * fetches
      case GenreModel => params.offset == 0
    }

    /** MLBaseModel(ml, parent): default parameters, parent type -1; the parent id is left unset as in the source. */
    constructor Root(k: ModelKind)
      requires k != GenreModel
      ensures kind == k && parentType == -1 && params == InitialParams()
      ensures items == [] && fetches == 0 && Valid()
    {
      kind := k;
      parentType := -1;
      params := InitialParams();
      items := [];
      fetches := 0;
    }

    /** MLBaseModel(ml, parent_type, parent_id, parent): default parameters and the given parent. */
    constructor WithParent(k: ModelKind, pType: int, pId: int)
      requires k != GenreModel
      ensures kind == k && parentType == pType && parentId == pId && params == InitialParams()
      ensures items == [] && fetches == 0 && Valid()
    {
      kind := k;
      parentType := pType;
      parentId := pId;
      params := InitialParams();
      items := [];
      fetches := 0;
    }

    /** MLGenreModel(ml, parent): the root base model, then one reload with the genres the library returns. */
    constructor Genres(genres: Option<seq<T>>)
      requires genres.Some?
      ensures kind == GenreModel && parentType == -1 && params == InitialParams()
      ensures items == genres.value && Valid()
    {
      kind := GenreModel;
      parentType := -1;
      params := InitialParams();
      items := [];
      fetches := 0;
      new;
      var req := Reload(genres);
    }

    /** sortRole: the role last set. */
    function SortRole(): int
      reads this
    {
      sortRole
    }

    /**
     * setSortRole: store the role and sort by its criterion; the offset,
     * the page size and the loaded items stay as they are.
     */
    method SetSortRole(role: int)
      requires Valid()
      modifies this
      ensures Valid()
      ensures SortRole() == role
      ensures params == old(params).(sort := RoleToCriteria(kind, role))
      ensures items == old(items) && fetches == old(fetches) && totalCount == old(totalCount)
      ensures parentType == old(parentType) && parentId == old(parentId)
    {
      sortRole := role;
      params := params.(sort := RoleToCriteria(kind, role));
    }

    /**
     * fetchMoreInner: send the list request with the current parameters,
     * append the page that comes back (never NULL here, since the source
     * dereferences it unchecked) and advance the offset.
     */
    method FetchMoreInner(page: Option<seq<T>>) returns (req: Request)
      requires kind != GenreModel && Valid() && page.Some?
      modifies this
      ensures Valid()
      ensures req == FetchRequest(kind, parentType, parentId, old(params))
      ensures items == old(items) + page.value
      ensures params == old(params).(offset := old(params.offset) + OffsetStep(kind, old(params), |page.value|))
      ensures fetches == old(fetches) + 1
      ensures parentType == old(parentType) && parentId == old(parentId)
      ensures sortRole == old(sortRole) && totalCount == old(totalCount)
    {
      req := FetchRequest(kind, parentType, parentId, params);
      var fetched := page.value;
      var step := OffsetStep(kind, params, |fetched|);
      var i := 0;
      while i < |fetched|
        invariant 0 <= i <= |fetched|
        invariant items == old(items) + fetched[..i]
        invariant params == old(params) && fetches == old(fetches)
        invariant parentType == old(parentType) && parentId == old(parentId)
        invariant sortRole == old(sortRole) && totalCount == old(totalCount)
      {
        items := items + [fetched[i]];
        i := i + 1;
      }
      params := params.(offset := params.offset + step);
      fetches := fetches + 1;
    }

    /**
     * clear: empty the list and rewind the offset. The artist model also
     * sets the page size to 0 and re-reads the total count with the reset
     * parameters; `total` is what that count request returns.
     */
    method Clear(total: nat) returns (countReq: Option<Request>)
      requires kind != GenreModel && Valid()
      modifies this
      ensures Valid()
      ensures items == [] && params.offset == 0 && fetches == 0
      ensures kind == ArtistModel ==>
        && params == old(params).(offset := 0, nbResults := 0)
        && totalCount == total
        && countReq == Some(CountTotalRequest(kind, parentType, parentId, params))
      ensures kind != ArtistModel ==>
        params == old(params).(offset := 0) && totalCount == old(totalCount) && countReq.None?
      ensures parentType == old(parentType) && parentId == old(parentId) && sortRole == old(sortRole)
    {
      countReq := None;
      if kind == ArtistModel {
        params := params.(offset := 0);
        params := params.(nbResults := 0);
        items := [];
        countReq := Some(CountTotalRequest(kind, parentType, parentId, params));
        totalCount := total;
      } else {
        items := [];
        params := params.(offset := 0);
      }
      fetches := 0;
    }

    /**
     * reload (genre model): drop every item and refill the list with the
     * genres the library returns, in order, reading with the current
     * parameters and leaving them unchanged.
     */
    method Reload(genres: Option<seq<T>>) returns (req: Request)
      requires kind == GenreModel && Valid() && genres.Some?
      modifies this
      ensures Valid()
      ensures req == FetchRequest(kind, parentType, parentId, params)
      ensures items == genres.value
      ensures params == old(params) && parentType == old(parentType) && parentId == old(parentId)
      ensures sortRole == old(sortRole) && totalCount == old(totalCount)
    {
      items := [];
      req := FetchRequest(kind, parentType, parentId, params);
      var fetched := genres.value;
      var i := 0;
      while i < |fetched|
        invariant 0 <= i <= |fetched|
        invariant items == fetched[..i]
        invariant params == old(params) && fetches == old(fetches)
        invariant parentType == old(parentType) && parentId == old(parentId)
        invariant sortRole == old(sortRole) && totalCount == old(totalCount)
      {
        items := items + [fetched[i]];
        i := i + 1;
      }
    }

    /** nbElementsInModel: the number of loaded items. */
    function NbElementsInModel(): (n: nat)
      reads this
      ensures n == |items|
    {
      |items|
    }

    /** rowCount (genre model): the list length for the root, 0 under any valid parent. */
    function RowCount(parent: ModelIndex): (n: nat)
      reads this
      ensures parent.Row? ==> n == 0
      ensures parent.Invalid? ==> n == |items|
    {
      if parent.Row? then 0 else |items|
    }

    /** get (album model): NULL exactly when the index is past the end. */
    function Get(idx: nat): (r: Option<T>)
      reads this
      ensures r.None? <==> idx >= |items|
      ensures r.Some? ==> r.value == items[idx]
    {
      if idx >= |items| then None else Some(items[idx])
    }

    /** getItem: NULL for an invalid index, otherwise the vector's at(row). */
    function GetItem(index: ModelIndex): (r: ItemLookup<T>)
      reads this
      ensures r.Null? <==> index.Invalid?
      ensures r.Found? <==> index.Row? && 0 <= index.row < |items|
      ensures r.Found? ==> r.item == items[index.row]
    {
      match index
      case Invalid => Null
      case Row(row) => if 0 <= row < |items| then Found(items[row]) else OutOfRange
    }

    /**
     * data: empty for an invalid index or an unknown role; the album model
     * also answers empty for a row outside the list, the others let at()
     * throw.
     */
    function Data(index: ModelIndex, role: int): (v: DataValue<T>)
      reads this
      ensures v.Field? <==>
        (index.Row? && 0 <= index.row < |items| && UserRole < role <= UserRole + DataRoleCount(kind))
      ensures v.Field? ==> v.item == items[index.row] && v.role == role
      ensures v.Throws? <==> kind != AlbumModel && index.Row? && !(0 <= index.row < |items|)
    {
      match index
      case Invalid => Empty
      case Row(row) =>
        if !(0 <= row < |items|) then
          if kind == AlbumModel then Empty else Throws
        else if UserRole < role <= UserRole + DataRoleCount(kind) then Field(items[row], role)
        else Empty
    }
  }

  /**
   * After k fetches since construction or clear, the artist offset is 20k
   * whatever came back: it can pass the number of loaded items.
   */
  lemma ArtistOffsetMayPassItems<T>(m: MLModel<T>, page: seq<T>)
    requires m.kind == ArtistModel && m.Valid() && m.fetches == 1 && m.items == page && |page| < 20
    ensures m.params.offset > |m.items|
  {
  }

  /** mlqmltypes.hpp's MLParentId: an id and a parent type. */
  datatype MLParentId = MLParentId(id: int, ptype: int)

  /** VLC_ML_PARENT_PLAYLIST, the value after VLC_ML_PARENT_GENRE. */
  const ParentPlaylist: int := 4

  /** MLParentId(): id 0, type -1. */
  function DefaultParentId(): (p: MLParentId)
    ensures p.id == 0 && p.ptype == -1
  {
    MLParentId(0, -1)
  }

  /** operator!=: the ids differ or the types differ. */
  function NotEqual(a: MLParentId, b: MLParentId): (r: bool)
    ensures r <==> a != b
  {
    a.id != b.id || a.ptype != b.ptype
  }

  /** The enumerator name toString prints for a parent type, with the source's "UNKNONW" for the rest. */
  function TypeName(t: int): (name: string)
    ensures name == "UNKNONW" <==> !(ParentAlbum <= t <= ParentPlaylist)
  {
    if t == ParentAlbum then "VLC_ML_PARENT_ALBUM"
    else if t == ParentArtist then "VLC_ML_PARENT_ARTIST"
    else if t == ParentShow then "VLC_ML_PARENT_SHOW"
    else if t == ParentGenre then "VLC_ML_PARENT_GENRE"
    else if t == ParentPlaylist then "VLC_ML_PARENT_PLAYLIST"
    else "UNKNONW"
  }

  function DigitChar(d: nat): (c: char)
    requires d < 10
    ensures '0' <= c <= '9' && c as int - '0' as int == d
  {
    ('0' as int + d) as char
  }

  predicate AllDigits(s: string)
  {
    forall i | 0 <= i < |s| :: '0' <= s[i] <= '9'
  }

  /** QString::arg of a non-negative integer: its decimal digits. */
  function Decimal(n: nat): (s: string)
    ensures |s| >= 1 && AllDigits(s)
  {
    if n < 10 then [DigitChar(n)] else Decimal(n / 10) + [DigitChar(n % 10)]
  }

  /** The number a string of decimal digits denotes. */
  function DecimalValue(s: string): nat
    requires AllDigits(s)
  {
    if s == [] then 0
    else DecimalValue(s[..|s| - 1]) * 10 + (s[|s| - 1] as int - '0' as int)
  }

  lemma {:induction false} DecimalRoundTrip(n: nat)
    ensures DecimalValue(Decimal(n)) == n
  {
    if n >= 10 {
      DecimalRoundTrip(n / 10);
      var s := Decimal(n);
      assert s[..|s| - 1] == Decimal(n / 10);
    }
  }

  /** QString::arg of an int64: a minus sign before the digits of a negative id. */
  function IdText(id: int): string
  {
    if id < 0 then "-" + Decimal(-id) else Decimal(id)
  }

  /** toString: "<type name> - <id>". */
  function ToString(p: MLParentId): (s: string)
    ensures |s| > |TypeName(p.ptype)| + 3
    ensures s[..|TypeName(p.ptype)| + 3] == TypeName(p.ptype) + " - "
  {
    TypeName(p.ptype) + " - " + IdText(p.id)
  }

  /** Reads back an id written by IdText: a decimal number, possibly after a minus sign. */
  function ParseId(s: string): Option<int>
  {
    if |s| > 0 && s[0] == '-' && AllDigits(s[1..]) then Some(-(DecimalValue(s[1..]) as int))
    else if AllDigits(s) then Some(DecimalValue(s))
    else None
  }

  lemma IdTextRoundTrip(id: int)
    ensures ParseId(IdText(id)) == Some(id)
  {
    if id < 0 {
      NegativeRoundTrip(-id);
    } else {
      NonNegativeRoundTrip(id);
    }
  }

  lemma NegativeRoundTrip(n: nat)
    requires n > 0
    ensures ParseId(IdText(-(n as int))) == Some(-(n as int))
  {
    var d := Decimal(n);
    assert IdText(-(n as int)) == "-" + d;
    ParseNegative(d);
    DecimalRoundTrip(n);
  }

  lemma NonNegativeRoundTrip(n: nat)
    ensures ParseId(IdText(n)) == Some(n as int)
  {
    var d := Decimal(n);
    assert IdText(n) == d;
    ParseNonNegative(d);
    DecimalRoundTrip(n);
  }

  lemma ParseNegative(d: string)
    requires AllDigits(d)
    ensures ParseId("-" + d) == Some(-(DecimalValue(d) as int))
  {
    assert ("-" + d)[1..] == d;
  }

  lemma ParseNonNegative(d: string)
    requires |d| > 0 && AllDigits(d)
    ensures ParseId(d) == Some(DecimalValue(d))
  {
    assert '0' <= d[0] <= '9';
  }

  /** The id can be read back from the text after the type name and " - ". */
  lemma ToStringId(p: MLParentId)
    ensures ParseId(ToString(p)[|TypeName(p.ptype)| + 3..]) == Some(p.id)
  {
    assert ToString(p)[|TypeName(p.ptype)| + 3..] == IdText(p.id);
    IdTextRoundTrip(p.id);
  }
}
