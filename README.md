# VLC hotkeys, mouse gestures and media-library queries in Dafny

This project models four parts of the VLC media player and proves properties about them.

- **Key names and the key map** (`src/misc/actions.c`):
  - the UTF-8 writer `utf8_cp`;
  - the key-name parser `vlc_str2keycode` and the printer `vlc_keycode2str`;
  - the sorted key and action tables `s_keys` and `s_names2actions`;
  - the name lookup `vlc_actions_get_id`;
  - the key-to-action map built by `add_mapping`, `add_wheel_mapping` and `init_action`;
  - the integer selection rules inside the hotkey dispatcher: track cycling, toggles, loop mode, subtitle text scale and subtitle-sync bookmarks.
- **The mouse-gesture recogniser** (`modules/control/gestures.c`): stroke patterns packed four bits per stroke, and the move, button and dispatch event handlers as a class with a preserved invariant.
- **Media-library query routing**:
  - the layout of `vlc_ml_list_queries` and the error contract of the `vlc_ml_list_*` / `vlc_ml_count_*` wrappers (`include/vlc_media_library.h`);
  - `filterListChildrenQuery`, the parameter and sort translation of `MediaLibrary::List`, and `metadataType` (`modules/misc/medialibrary/medialib.cpp`).
- **The Qt media-centre list models**:
  - `MLBaseModel` and the album, artist, album-track and genre models;
  - each is a class whose methods append, clear and reload the item list and move the query offset the way each model does;
  - the `MLParentId` value type.

Files, one module each:

- `wrappers.dfy`: Option.
- `seqs.dfy`: first-index search.
- `utf8.dfy`: `utf8_cp` and its decoder partner.
- `cstrings.dfy`: `strcmp`, `bsearch`, `strcspn` and tab tokenising.
- `keys.dfy`: key codes and the `s_keys` table.
- `keycodec.dfy`: the parser and the printer.
- `action_table.dfy`: `s_names2actions`.
- `action_map.dfy`: the map, initialisation and bookmarks.
- `choices.dfy`: the dispatcher's cycling rules.
- `gestures.dfy`: the gesture recogniser.
- `medialib.dfy`: the header wrappers and the routing.
- `ml_models.dfy`: the Qt models and `MLParentId`.

Modelling choices:

- A C string is a `seq<char>` with one byte per character, so every value is below 256 and none is NUL.
- Key codes are unbounded integers restricted to 32 bits (`uint32`). The modifier bits are a record of five booleans with explicit conversions.
- The `KEY_*` and `ACTIONID_*` values come from `vlc_actions.h`, which is not part of this model. Actions are constructors of a datatype. The named keys carry values below the modifier bits, which is all that the proofs use.
- Configuration is a map from option names to strings. `gettext` is a function parameter. The media library's `pf_list` is a function parameter that answers a status and a value. Clocks are parameters.
- `vlc_towc` is not part of this model. It is modelled by a minimal-form UTF-8 decoder of the first code point, which is also the partner that the UTF-8 writer is proved against.

## Model

| member | source | states |
|---|---|---|
| Seqs.IndexOf | src/misc/actions.c:240-245 | the index found holds the value and no earlier index does; None exactly when the value is absent |
| Seqs.Find | src/misc/actions.c:240-245 | the linear search loop returns the first index of the value, as IndexOf |
| Utf8.Utf8CpAsWritten | src/misc/actions.c:137-174 | the buffer writer as written: fails exactly for cp >= 2^21 and then leaves buf untouched; otherwise writes the as-written byte sequence followed by NUL and leaves the bytes after the NUL as they were |
| Utf8.Utf8Cp | src/misc/actions.c:137-174 | the same writer with the 4-byte lead 0xF0: fails exactly for cp >= 2^21 and then leaves buf untouched; otherwise writes Encode(cp) followed by NUL and leaves the bytes after the NUL as they were |
| Utf8.EncodeLength | src/misc/actions.c:141-172 | both encodings fail exactly for cp >= 2^21; 1, 2, 3 or 4 bytes for cp below 0x80, 0x800, 0x10000 and 2^21 |
| Utf8.EncodeShape | src/misc/actions.c:141-172 | lead byte 0xC0/0xE0/0xF0 with the top bits of cp; every continuation byte is 0x80 or 6 bits of cp |
| Utf8.EncodeAsWrittenLead | src/misc/actions.c:160-170 | from 0x10000 up, the as-written lead byte lies in 0xE0..0xEF and the output differs from the RFC 3629 (section 3) encoding |
| Utf8.DecodeFirst | src/misc/actions.c:208-210 | a decoded code point is 1..4 bytes long, lies inside the input, is below 0x110000, and has continuation bytes only after the lead |
| Utf8.DecodeEncode | src/misc/actions.c:137-174 | decoding the corrected encoding of any cp in 1..0x10FFFF gives back cp and its length, whatever follows |
| Utf8.DecodeEncodeAsWrittenFails | src/misc/actions.c:160-170 | for every cp from 0x10000 up, decoding the as-written bytes never gives back cp |
| Utf8.EncodeAsWrittenExample | src/misc/actions.c:160-170 | U+20000 is written E0 A0 80 80, which decodes as U+0800; the corrected F0 A0 80 80 decodes as U+20000 |
| CStrings.StrCmpOrder | src/misc/actions.c:130-134 | strcmp is 0, negative or positive exactly when the strings are equal, or the first or second is lexicographically smaller |
| CStrings.BinarySearch | src/misc/actions.c:203-206 | bsearch on a strictly sorted table finds an index holding the key, and answers None exactly when the key is absent |
| CStrings.SepFrom | src/misc/actions.c:190 | strcspn for "-+": the first separator at or after k, or the end |
| CStrings.SepFromFirst | src/misc/actions.c:190 | no separator lies between k and the position strcspn returns |
| CStrings.FieldSpan | src/misc/actions.c:498-500 | strcspn for a tab: the characters before it are not tabs, and it stops on a tab or at the end |
| CStrings.TokensSplit | src/misc/actions.c:498-512 | the tokens strtok_r yields are non-empty and tab-free, and joined they are the value with its tabs removed |
| Keys.KeyOf | src/misc/actions.c:238 | code & ~KEY_MODIFIER clears the five modifier bits |
| Keys.SplitCode | src/misc/actions.c:238 | a 32-bit code is its key part plus the bits of its modifiers |
| Keys.ModifiersOfSum | src/misc/actions.c:213-218 | OR-ing modifiers into a key below the modifier bits keeps 32 bits, and the key and the modifiers can be read back |
| Keys.FlagByteOfFlags | src/misc/actions.c:213-218 | every 5-bit modifier byte is the byte of the modifiers it encodes |
| Keys.KeyTable | src/misc/actions.c:54-127 | s_keys (all 67 entries, "Space" among them) has one code per name, is strictly sorted under strcmp as bsearch needs, and holds only plain names and key values below the modifier bits |
| Keys.KeyUnsetNamed | src/misc/actions.c:120 | KEY_UNSET has a table entry ("Unset") |
| Keys.SpaceNamed | src/misc/actions.c:118 | "Space" is the entry of the blank character, and no earlier entry has its code |
| Keys.SpaceNotBefore | src/misc/actions.c:54-118 | no entry before "Space" has the code 0x20 |
| KeyCodec.SplitModifiers | src/misc/actions.c:188-206 | the modifier scan stops inside the name, never before where it started |
| KeyCodec.KeyByName | src/misc/actions.c:203-206 | a name gives a code exactly when it is in s_keys, and that code has no modifier bits |
| KeyCodec.Towc | src/misc/actions.c:208-210 | a decoded single character is a non-zero Unicode scalar |
| KeyCodec.LookupKey | src/misc/actions.c:203-211 | the last segment maps to a code without modifier bits: the table code, else the character, else KEY_UNSET |
| KeyCodec.ScanModifier | src/misc/actions.c:193-202 | one segment adds the modifier whose word it matches case-insensitively, and adds nothing otherwise |
| KeyCodec.FindKey | src/misc/actions.c:203-211 | the table search and character fallback compute LookupKey |
| KeyCodec.SpaceParses | src/misc/actions.c:203-206 | "Space" parses to the blank character 0x20 through its table entry, not to the letter S |
| KeyCodec.SpacePrinted | src/misc/actions.c:241-246 | the blank character 0x20 is printed as "Space", its first table entry |
| KeyCodec.ScanModifiers | src/misc/actions.c:188-206 | the segment loop computes SplitModifiers and stops at the last segment |
| KeyCodec.ParseKeyAt | src/misc/actions.c:183-219 | the parse result is the key of the last segment with the collected modifiers OR-ed in, or KEY_UNSET when that key is KEY_UNSET |
| KeyCodec.Str2Keycode | src/misc/actions.c:183-219 | vlc_str2keycode computes ParseKey for every C string |
| KeyCodec.ParseKeyUnset | src/misc/actions.c:211-218 | the result fits in 32 bits, and modifiers are never OR-ed into KEY_UNSET |
| KeyCodec.WordSets | src/misc/actions.c:193-202 | each printed modifier word (Ctrl, Alt, Shift, Meta, Command) sets exactly its own modifier |
| KeyCodec.PrintedParse | src/misc/actions.c:252-259 | re-reading the prefixes in printed order gives back the modifiers |
| KeyCodec.Keycode2Str | src/misc/actions.c:234-262 | vlc_keycode2str computes FormatKey; NULL exactly when the key has no table name and is at or above 2^21 |
| KeyCodec.KeyNameParse | src/misc/actions.c:238-249 | the name printed for a key (table name or corrected UTF-8) is looked up as that key again |
| KeyCodec.ParsePrefixed | src/misc/actions.c:183-219 | parsing printed prefixes followed by a key name gives the key with the prefixes' modifiers |
| KeyCodec.Keycode2StrParse | src/misc/actions.c:176-181 | round trip: parsing the locale-free name of a named key other than Unset, or of a code point below 0x110000, gives back the code |
| KeyCodec.AsWrittenNameMisread | src/misc/actions.c:160-170 | the as-written name of U+20000 (E0 A0 80 80) parses as key U+0800 |
| ActionTable.ActionTableFacts | src/misc/actions.c:268-386 | s_names2actions has 111 entries, is strictly sorted under strcmp, has no ACTIONID_NONE, and every name fits MAXACTION |
| ActionTable.LongestActionName | src/misc/actions.c:267 | "subtitle-text-scale-normal" is exactly MAXACTION (26) characters long, so the name buffer has no room for its NUL |
| ActionMap.GetActionId | src/misc/actions.c:605-616 | the result is not ACTIONID_NONE exactly when the name is "key-" followed by a table name, and then it is that entry's id |
| ActionMap.GetActionIdOfEntry | src/misc/actions.c:605-616 | every table entry's "key-" name looks up its own id |
| ActionMap.ActionsGetId | src/misc/actions.c:605-616 | the prefix test and bsearch compute GetActionId |
| ActionMap.CheckOrder | src/misc/actions.c:543-551 | the order check passes exactly when the names are strictly sorted |
| ActionMap.TableInOrder | src/misc/actions.c:543-551 | the order check over s_names2actions passes, so init never aborts |
| ActionMap.GlobalKeyNamesFit | src/misc/actions.c:554-557 | every "global-key-" name fits the 12 + MAXACTION buffer with its NUL |
| ActionMap.Bind | src/misc/actions.c:438-455 | after binding, the key is mapped; a key already bound keeps its action (first binding wins); every other key is untouched |
| ActionMap.BindAllSpec | src/misc/actions.c:505-512 | binding a list keeps old bindings, adds exactly the listed keys, and gives new keys the action |
| ActionMap.TokenCodes | src/misc/actions.c:505-512 | tokens that parse to KEY_UNSET are skipped; every code kept is the parse of some token |
| ActionMap.ConfigCodes | src/misc/actions.c:491-513 | the codes init_action binds never include KEY_UNSET |
| ActionMap.WheelActions | src/misc/actions.c:457-482 | the wheel actions are set exactly for modes 0, 2 and 3, and the two directions get different actions |
| ActionMap.WheelReversed | src/misc/actions.c:468-475 | mode 3 is mode 2 with the directions swapped |
| ActionMap.WheelBindSpec | src/misc/actions.c:457-482 | other modes leave the map unchanged; modes 0, 2 and 3 bind both wheel codes; no other key changes |
| ActionMap.Inherit | src/misc/actions.c:494-496 | an inherited option value is a C string |
| ActionMap.ConfigLists | src/misc/actions.c:539-557 | no key list read for a table entry contains KEY_UNSET, and an entry whose option is unset binds nothing |
| ActionMap.TableBindingsSpec | src/misc/actions.c:539-557 | after reading the table, a key is bound exactly when some entry lists it, and it goes to the first entry that does |
| ActionMap.TableUnsetFree | src/misc/actions.c:539-557 | KEY_UNSET is never bound |
| ActionMap.InitialBindingsFirst | src/misc/actions.c:518-571 | at init, a key listed for table entry i and for no earlier entry is bound to action i |
| ActionMap.InitialBindingsUnset | src/misc/actions.c:518-571 | KEY_UNSET is never bound at init |
| ActionMap.GetKeycode | src/misc/actions.c:619-633 | KEY_UNSET for an unset option; otherwise a 32-bit parse that is never KEY_UNSET with modifiers |
| ActionMap.GetKeycodeOfSaved | src/misc/actions.c:619-633 | an option holding the printed name of a code reads back as that code |
| ActionMap.SubsyncDelay | src/misc/actions.c:1090-1125 | applies only with an input and both bookmarks non-zero, and then the delay grows by audio minus subtitle |
| ActionMap.ReadTable | src/misc/actions.c:539-557 | the loop builds both maps from the "key-" and "global-key-" options of each entry |
| ActionMap.KeyMap.constructor | src/misc/actions.c:528-529 | the map starts empty |
| ActionMap.KeyMap.Lookup | src/misc/actions.c:419-433 | finds a binding exactly when the key is bound, and returns its action |
| ActionMap.KeyMap.AddMapping | src/misc/actions.c:438-455 | inserts a new key and returns 0; a bound key returns EEXIST and keeps its action |
| ActionMap.KeyMap.KeyToAction | src/misc/actions.c:419-433 | an unmapped key yields no action, a mapped key its action |
| ActionMap.KeyMap.AddWheelMapping | src/misc/actions.c:457-482 | the map becomes WheelBind of the old map |
| ActionMap.KeyMap.InitAction | src/misc/actions.c:491-513 | the map becomes the old map with the option's non-unset codes bound to the action |
| ActionMap.Actions.Init | src/misc/actions.c:518-571 | builds both maps from the table, adds the wheel bindings to the key map only, keeps the action names, and zeroes both bookmarks |
| ActionMap.Actions.KeyNames | src/misc/actions.c:636-641 | returns the stored action-name list |
| ActionMap.Actions.MarkAudio | src/misc/actions.c:1062-1066 | records the audio bookmark and changes nothing else |
| ActionMap.Actions.MarkSubtitle | src/misc/actions.c:1068-1089 | records the subtitle bookmark only with an input, at least one subtitle choice and a selected track |
| ActionMap.Actions.ApplySubsync | src/misc/actions.c:1090-1125 | computes SubsyncDelay, and zeroes both bookmarks exactly when it applies |
| ActionMap.Actions.ResetSubsync | src/misc/actions.c:1127-1134 | the delay becomes 0 and both bookmarks are zeroed |
| Choices.Position | src/misc/actions.c:1194-1200 | the index scan stops at the first entry equal to the value, or at the end exactly when it is absent |
| Choices.FindPosition | src/misc/actions.c:1194-1200 | the scan loop computes Position |
| Choices.SubtitleNext | src/misc/actions.c:1219-1263 | a subtitle step happens exactly when there are more than one choice, and picks an index in range |
| Choices.SubtitleNextCycles | src/misc/actions.c:1237-1253 | an unknown current value selects 0; next wraps last to 0 and reverse wraps 0 to last |
| Choices.SubtitleNextInverse | src/misc/actions.c:1219-1263 | a reverse step undoes a forward step |
| Choices.SubtitleTrack | src/misc/actions.c:1219-1263 | the dispatcher's loop computes SubtitleNext |
| Choices.ProgramNext | src/misc/actions.c:1314-1363 | the program step is the subtitle step, with "previous" as reverse, so it wraps both ways |
| Choices.ProgramSid | src/misc/actions.c:1314-1363 | the dispatcher's loop computes ProgramNext |
| Choices.AudioNext | src/misc/actions.c:1183-1218 | an audio step happens exactly when there are at least two entries, and picks an index in range |
| Choices.AudioNextCycles | src/misc/actions.c:1201-1211 | an unknown value selects 0; the last entry steps to index 1; others step to the next |
| Choices.AudioTrack | src/misc/actions.c:1183-1218 | the dispatcher's loop computes AudioNext |
| Choices.SubtitleToggle | src/misc/actions.c:1264-1313 | toggles only with more than one choice, and selects a listed track: the "disable" entry or the remembered choice |
| Choices.SubtitleToggleTwice | src/misc/actions.c:1264-1313 | with a real track selected, toggling changes the track and toggling again restores the state |
| Choices.SubtitleToggleStep | src/misc/actions.c:1264-1313 | the dispatcher's loop computes SubtitleToggle |
| Choices.NextChoice | src/misc/actions.c:1499-1557 | the aspect and crop step lands in range, wrapping to 0 also when the current value is absent |
| Choices.NextChoiceCycles | src/misc/actions.c:1508-1517 | the step goes to the entry after the current one modulo the count, or 0 when the value is absent |
| Choices.PressesWalk | src/misc/actions.c:1499-1557 | with distinct entries, k presses from the first entry reach entry k |
| Choices.PressesReturn | src/misc/actions.c:1499-1557 | as many presses as entries return to the first entry |
| Choices.StepChoice | src/misc/actions.c:1499-1557 | the dispatcher's loop computes NextChoice |
| Choices.LoopNext | src/misc/actions.c:833-855 | repeat goes to off, loop goes to repeat, off goes to loop |
| Choices.LoopCycle | src/misc/actions.c:833-855 | three presses from any consistent state return to it; every press changes the state and never sets both flags |
| Choices.TextScale | src/misc/actions.c:1826-1847 | the scale stays in [10, 500]; NORMAL gives 100; UP never lowers it and DOWN never raises it unless clamped |
| Choices.TextScaleInverse | src/misc/actions.c:1826-1847 | away from the clamps, UP and DOWN undo each other |
| Gestures.Gesture4 | modules/control/gestures.c:66 | GESTURE packs four strokes into 16 bits |
| Gestures.GestureUnpack | modules/control/gestures.c:152-155 | gesture(GESTURE(a,b,c,d), k) recovers the k-th argument, and 0 from k = 4 on |
| Gestures.GestureAppend | modules/control/gestures.c:298-313 | OR-ing a stroke above n strokes sets nibble n and keeps the others |
| Gestures.TruncDiv | modules/control/gestures.c:274-275 | C division truncates toward zero: 0 exactly when the dividend is smaller in magnitude, negative exactly when the signs differ |
| Gestures.TruncDivBounds | modules/control/gestures.c:274-275 | the quotient's magnitude is that of the floor of the magnitudes, and it changes sign with either operand |
| Gestures.Direction | modules/control/gestures.c:277-296 | a non-zero vertical step wins over the horizontal one; both zero give no direction |
| Gestures.Dispatch | modules/control/gestures.c:192-253 | a pattern that triggers anything is a one- or two-stroke value below 256, and no pattern triggers more than three actions |
| Gestures.DispatchIffShortGesture | modules/control/gestures.c:184-257 | only patterns of one or two strokes dispatch anything |
| Gestures.DispatchFallsThrough | modules/control/gestures.c:198-252 | as written the cases fall through: RIGHT also slows down, DOWN-RIGHT also toggles fullscreen and quits, UP-LEFT also quits, squares do nothing |
| Gestures.ButtonMask | modules/control/gestures.c:132-139 | mask 1 exactly for "left", 2 exactly for "middle", 4 otherwise |
| Gestures.AppendStroke | modules/control/gestures.c:298-313 | appending a stroke unlike the last one keeps the pattern well formed and adds exactly that stroke |
| Gestures.Recogniser.Open | modules/control/gestures.c:115-147 | the mask from the setting, the threshold, button up, no strokes, invariant established |
| Gestures.Recogniser.Moved | modules/control/gestures.c:259-320 | without the button nothing changes; with it, a recognised direction moves the anchor and is appended unless it repeats the last stroke; the invariant is kept |
| Gestures.Recogniser.Button | modules/control/gestures.c:322-351 | pressing anchors a gesture; releasing while pressed dispatches and clears it; other cases change nothing |
| Gestures.Recogniser.ProcessGesture | modules/control/gestures.c:184-257 | dispatches the old pattern and always leaves no strokes |
| MediaLibrary.QueryOf | include/vlc_media_library.h:453-505 | a code names a query exactly when it lies in the enum |
| MediaLibrary.QueryLayout | include/vlc_media_library.h:453-505 | every LIST code is immediately followed by its COUNT code, and every query reads back from its code |
| MediaLibrary.CodeInjective | include/vlc_media_library.h:453-505 | different queries have different codes |
| MediaLibrary.ListVia | include/vlc_media_library.h:515-521 | a list wrapper returns NULL exactly when pf_list fails, and otherwise the list produced |
| MediaLibrary.CountVia | include/vlc_media_library.h:523-529 | a count wrapper returns 0 when pf_list fails, and otherwise the count produced |
| MediaLibrary.ListRequest | include/vlc_media_library.h:515-801 | each list wrapper sends its own LIST code |
| MediaLibrary.CountRequest | include/vlc_media_library.h:515-801 | each count wrapper should send its own COUNT code, one above its LIST code, with the same parameters and arguments |
| MediaLibrary.CountCodeAsWrittenMismatch | include/vlc_media_library.h:779-801 | as written, exactly two count wrappers send another code: show episodes sends COUNT_GENRE_ALBUMS and media labels sends LIST_MEDIA_LABELS |
| MediaLibrary.MlList | include/vlc_media_library.h:515-521 | vlc_ml_list_* is NULL exactly when its pf_list call fails, and otherwise the list pf_list produced |
| MediaLibrary.MlCount | include/vlc_media_library.h:523-529 | vlc_ml_count_* as written, with the code each wrapper sends: 0 when pf_list fails, and otherwise the count pf_list produced |
| MediaLibrary.MlCountIntended | include/vlc_media_library.h:523-529 | with each family's own COUNT code: 0 when pf_list fails, and otherwise the count pf_list produced |
| MediaLibrary.MlCountAgrees | include/vlc_media_library.h:523-801 | every count wrapper but show episodes and media labels counts what it is meant to |
| MediaLibrary.FilterAsWrittenPairs | modules/misc/medialibrary/medialib.cpp:804-879 | as written, every handled COUNT_*_OF rewrite is the COUNT counterpart of the LIST rewrite |
| MediaLibrary.FilterAsWrittenWrongParent | modules/misc/medialibrary/medialib.cpp:813-814 | as written, the media of an artist go to a listing keyed by an album, and the artists of an artist to one keyed by a genre |
| MediaLibrary.FilterRoutesToParent | modules/misc/medialibrary/medialib.cpp:804-879 | the corrected rewrite lists the same entity kind, keyed by the parent type asked for |
| MediaLibrary.FilterPairs | modules/misc/medialibrary/medialib.cpp:804-879 | for every supported parent, the COUNT rewrite is one above the LIST rewrite |
| MediaLibrary.RouteQuery | modules/misc/medialibrary/medialib.cpp:380-394 | as written: only the six *_OF codes are rewritten, each to a query of a family keyed by some parent, never to another *_OF code; all others pass through |
| MediaLibrary.RouteQueryIntended | modules/misc/medialibrary/medialib.cpp:380-394 | with the corrected rewrite: the six *_OF codes go to the query keyed by the parent type asked for; all others pass through |
| MediaLibrary.KeyedTarget | include/vlc_media_library.h:453-505 | a query of a parent-keyed family is no *_OF query and reads back from its code |
| MediaLibrary.RouteAsWrittenKeyed | modules/misc/medialibrary/medialib.cpp:804-879 | as written, every handled rewrite names a query of a family keyed by some parent |
| MediaLibrary.RouteKeyed | modules/misc/medialibrary/medialib.cpp:804-879 | the corrected rewrite names the query of the family keyed by the parent asked for |
| MediaLibrary.FilterListChildrenQueryAsWritten | modules/misc/medialibrary/medialib.cpp:804-879 | filterListChildrenQuery as written keeps LIST or COUNT and never yields a *_OF code |
| MediaLibrary.FilterListChildrenQuery | modules/misc/medialibrary/medialib.cpp:804-879 | the corrected rewrite keeps LIST or COUNT and never yields a *_OF code |
| MediaLibrary.SortCriterion | modules/misc/medialibrary/medialib.cpp:337-375 | a criterion other than Default has the VLC_ML_SORTING_* value it came from; Default comes exactly from SORTING_DEFAULT or a value outside the enum |
| MediaLibrary.MetadataTypeOf | modules/misc/medialibrary/medialib.cpp:725-770 | the metadata type chosen for a playback preference is the one of the same name |
| MediaLibrary.SortCriterionNames | modules/misc/medialibrary/medialib.cpp:337-375 | each VLC_ML_SORTING_* value maps to the criterion of the same name; unknown values keep the zero default |
| MediaLibrary.TranslateParams | modules/misc/medialibrary/medialib.cpp:330-379 | NULL params give no parameters and zero limit and offset; otherwise desc, limit and offset are copied and the sort is translated |
| MediaLibrary.MetadataTypeRoundTrip | modules/misc/medialibrary/medialib.cpp:725-770 | metadataType maps each playback preference to the metadata type of the same name, one to one |
| MediaLibraryModels.RoleToCriteria | modules/gui/qt/components/mediacenter/mlalbummodel.cpp:120-135 | a sort other than DEFAULT only comes from one of the model's own roles |
| MediaLibraryModels.RoleToCriteriaAlpha | modules/gui/qt/components/mediacenter/mlartistmodel.cpp:93-102 | ALPHA exactly for the title or name role of each model |
| MediaLibraryModels.NameToCriteria | modules/gui/qt/components/mediacenter/mlalbummodel.cpp:115-118 | names missing from the table fall back to DEFAULT |
| MediaLibraryModels.NameAndRoleCriteria | modules/gui/qt/components/mediacenter/mlalbummodel.cpp:17-24 | the name table and the role switch of the album model agree on every role except the title, where the names give ALBUM and the roles ALPHA |
| MediaLibraryModels.InitialParams | modules/gui/qt/components/mediacenter/mlbasemodel.cpp:9-12 | offset 0, page size 20, no pattern, ascending, DEFAULT sort |
| MediaLibraryModels.FetchRequest | modules/gui/qt/components/mediacenter/mlalbummodel.cpp:87-93 | fetchMoreInner sends a LIST query with the model's parameters |
| MediaLibraryModels.CountTotalRequest | modules/gui/qt/components/mediacenter/mlalbummodel.cpp:146-151 | countTotalElements sends a COUNT query with the model's parameters |
| MediaLibraryModels.FetchChildQuery | modules/gui/qt/components/mediacenter/mlalbummodel.cpp:87-93 | the fetch is a *_OF query exactly for a model other than the genre model with a parent id, and then passes the parent type and id |
| MediaLibraryModels.CountChildQuery | modules/gui/qt/components/mediacenter/mlalbummodel.cpp:146-151 | the count is a *_OF query exactly when there is a parent id, and then passes the parent type and id |
| MediaLibraryModels.FetchCountAgree | modules/gui/qt/components/mediacenter/mlalbummodel.cpp:87-151 | fetch and count choose the same listing and arguments for a parent id, and the count is its COUNT counterpart |
| MediaLibraryModels.MLModel.Root | modules/gui/qt/components/mediacenter/mlbasemodel.cpp:4-13 | default parameters, parent type -1, no items, invariant established |
| MediaLibraryModels.MLModel.WithParent | modules/gui/qt/components/mediacenter/mlbasemodel.cpp:15-26 | default parameters, the given parent type and id, no items |
| MediaLibraryModels.MLModel.Genres | modules/gui/qt/components/mediacenter/mlgenremodel.cpp:17-21 | the genre model starts by reloading: it holds the fetched genres |
| MediaLibraryModels.MLModel.SetSortRole | modules/gui/qt/components/mediacenter/mlbasemodel.cpp:32-42 | sortRole returns the new role; only the sort parameter changes, to roleToCriteria(role); items and offset are kept |
| MediaLibraryModels.MLModel.FetchMoreInner | modules/gui/qt/components/mediacenter/mlalbummodel.cpp:87-100 | sends the fetch for the old parameters, appends the page in order, moves the offset by each model's step, and keeps the offset invariant |
| MediaLibraryModels.MLModel.Clear | modules/gui/qt/components/mediacenter/mlartistmodel.cpp:73-79 | empties the list and zeroes the offset; the artist model also zeroes the page size and re-reads the total count |
| MediaLibraryModels.MLModel.Reload | modules/gui/qt/components/mediacenter/mlgenremodel.cpp:69-78 | the list becomes exactly the fetched genres, read with unchanged parameters |
| MediaLibraryModels.MLModel.NbElementsInModel | modules/gui/qt/components/mediacenter/mlalbummodel.cpp:110-113 | the element count is the list length |
| MediaLibraryModels.MLModel.RowCount | modules/gui/qt/components/mediacenter/mlgenremodel.cpp:23-31 | 0 for a valid parent, the list length for the root |
| MediaLibraryModels.MLModel.Get | modules/gui/qt/components/mediacenter/mlalbummodel.cpp:80-85 | null exactly when idx >= size; otherwise item idx |
| MediaLibraryModels.MLModel.GetItem | modules/gui/qt/components/mediacenter/mlartistmodel.cpp:104-111 | null for an invalid index; the item for a row in range |
| MediaLibraryModels.MLModel.Data | modules/gui/qt/components/mediacenter/mlalbummodel.cpp:31-64 | a field exactly for a row in range and a known role; the unchecked at() of the other models throws for a row out of range |
| MediaLibraryModels.ArtistOffsetMayPassItems | modules/gui/qt/components/mediacenter/mlartistmodel.cpp:65 | a short artist page leaves the offset beyond the number of loaded items |
| MediaLibraryModels.DefaultParentId | modules/gui/qt/components/mediacenter/mlqmltypes.hpp:33 | id 0 and type -1 |
| MediaLibraryModels.NotEqual | modules/gui/qt/components/mediacenter/mlqmltypes.hpp:35-38 | true exactly when the id or the type differs |
| MediaLibraryModels.TypeName | modules/gui/qt/components/mediacenter/mlqmltypes.hpp:42-55 | "UNKNONW" exactly for types outside the five named parent types |
| MediaLibraryModels.DecimalRoundTrip | modules/gui/qt/components/mediacenter/mlqmltypes.hpp:54 | the decimal digits of a number read back as that number |
| MediaLibraryModels.ToString | modules/gui/qt/components/mediacenter/mlqmltypes.hpp:42-55 | the text starts with the type name and " - " |
| MediaLibraryModels.IdTextRoundTrip | modules/gui/qt/components/mediacenter/mlqmltypes.hpp:54 | the decimal text of any id, negative ones with a minus sign, reads back as the id |
| MediaLibraryModels.ToStringId | modules/gui/qt/components/mediacenter/mlqmltypes.hpp:42-55 | the id can be read back from the text after "<type name> - " |

## Left out

- vlc_towc: not part of this model. A minimal-form decoder of the first code point stands in for it.
- KeyCodec.Keycode2Str: prints a code point from U+10000 on with the corrected lead byte 0xF0, where the source writes 0xE0 (see Findings). The as-written bytes are Utf8.Utf8CpAsWritten, and KeyCodec.AsWrittenNameMisread shows what it would print.
- gettext: a function parameter of Keycode2Str. The round trip is stated for the identity, which is `nooptext`.
- The numeric values of `KEY_*` and `ACTIONID_*`: `vlc_actions.h` is not part of this model. The key table's sortedness is by name, which is all that its lookup uses.
- Allocation failures: malloc, asprintf and tsearch returning out-of-memory, and the init abort when the action table is out of order. The order check is modelled, and the table is proved in order.
- Variables, OSD, playlist, aout and vout calls of the dispatcher; the clock (`mdate`) and the bookmark URI lookup: they are I/O. The bookmark times are parameters.
- The dispatcher's float rules (rate, zoom, viewpoint) and `adjust_rate_fine`: floating point.
- The dispatcher's mutex and the callback registration of `libvlc_InternalActionsInit`: concurrency and plumbing.
- ActionMap.SubsyncDelay: the 64-bit arithmetic of the delay is unbounded here, so overflow is not modelled.
- Choices.NextChoice: requires a non-empty list. Aspect-ratio and crop values come from a variable's choice list, which the source indexes without checking it is empty.
- Gestures.Recogniser.Moved: requires a non-zero threshold while the button is pressed. The source divides by it unchecked.
- Gestures pattern width: the pattern is an unbounded number. The 32-bit unsigned pattern, and the undefined shifts from the ninth stroke on, are not modelled; nine or more strokes dispatch nothing either way. Coordinates are unbounded integers.
- The gesture module's mutex and its variable callbacks: concurrency.
- The 32-bit `nbResults` and `offset` of the query parameters: unbounded naturals here.
- The calls of `MediaLibrary::List` into the medialibrary library and the conversion of its results: external APIs. Results arrive as `pf_list` answers and pages.
- The zero value of `medialibrary::SortingCriteria`: taken to be Default, as the name of the enum's first entry suggests.
- Qt signal plumbing (begin/end insert rows, reset model) and QVariant/QString wrapping.
- MLModel: the album model's `m_parent` is unified with the base model's parent type and id. The artist count's extra argument and `ml_list_genres` are kept as the generic list request. The sliding window and `fetchMore` driver are not in the shown code and are not modelled.
- MediaLibraryModels.MLModel.Root: the parent id is left unset, as in the source.
- MediaLibraryModels.MLModel.Clear: the total count is a parameter, because re-reading it is a media-library call. The count request it would send is returned.
- MediaLibraryModels.MLModel.Genres: requires a fetched list. The source dereferences the result of `ml_list_genres` unchecked, as FetchMoreInner and Reload also do.
- MediaLibraryModels.TypeName: `VLC_ML_PARENT_PLAYLIST` is not in the shown header. The value 4 after `VLC_ML_PARENT_GENRE` is assumed.
- MediaLibraryModels.ToString: QString::arg is modelled for decimal integers only.
- Record classes (`MLAlbum`, `MLArtist`, `MLAlbumTrack`, `MLGenre`): field copies with no behaviour. Model items are a type parameter.

## Findings

| source | as written | input that shows it | evidently intended | confidence | as-written member | corrected member |
|---|---|---|---|---|---|---|
| src/misc/actions.c:160-170 | the 4-byte branch of utf8_cp writes lead byte 0xE0 \| (cp >> 18) | cp = 0x20000 is written E0 A0 80 80, which reads back as U+0800, so vlc_str2keycode(vlc_keycode2str(0x20000)) is 0x800 | lead byte 0xF0 \| (cp >> 18), as RFC 3629 section 3 gives | high (not executed) | Utf8.DecodeEncodeAsWrittenFails | Utf8.DecodeEncode |
| include/vlc_media_library.h:779-785 | vlc_ml_count_show_episodes sends VLC_ML_COUNT_GENRE_ALBUMS | any call: the request reads back as the genre-albums count | VLC_ML_COUNT_SHOW_EPISODES | high (not executed) | MediaLibrary.CountCodeAsWrittenMismatch | MediaLibrary.MlCountIntended |
| include/vlc_media_library.h:795-801 | vlc_ml_count_media_labels sends VLC_ML_LIST_MEDIA_LABELS | any call: the request reads back as the media-labels list | VLC_ML_COUNT_MEDIA_LABELS | high (not executed) | MediaLibrary.CountCodeAsWrittenMismatch | MediaLibrary.CountRequest |
| modules/misc/medialibrary/medialib.cpp:813-814 | LIST_MEDIA_OF and COUNT_MEDIA_OF with parent ARTIST become the ALBUM_TRACKS queries | (LIST_MEDIA_OF, VLC_ML_PARENT_ARTIST): the artist id is used as an album id | the ARTIST_TRACKS queries | medium (not executed) | MediaLibrary.FilterAsWrittenWrongParent | MediaLibrary.RouteQueryIntended |
| modules/misc/medialibrary/medialib.cpp:861-862 | LIST_ARTISTS_OF and COUNT_ARTISTS_OF handle parent ARTIST and send the GENRE_ARTISTS queries | (LIST_ARTISTS_OF, VLC_ML_PARENT_ARTIST): the artist id is used as a genre id, and a genre parent is unreachable | case VLC_ML_PARENT_GENRE | medium (not executed) | MediaLibrary.FilterAsWrittenWrongParent | MediaLibrary.RouteQueryIntended |

Where a description of the program and its code disagree, this model follows the code. Two examples are the `ARTIST` cases of `filterListChildrenQuery` and the two header count wrappers: the model states them as written (`MediaLibrary.RouteQuery`, `MediaLibrary.MlCount`), and the corrected members route them as intended (`MediaLibrary.RouteQueryIntended`, `MediaLibrary.MlCountIntended`). The Qt models call neither of the two affected count wrappers, so their requests are the same under both. The key-name printer `KeyCodec.Keycode2Str` uses the corrected UTF-8 writer, so that its round trip can be stated; the as-written writer is kept alongside it.
