/**
 * The action side of src/misc/actions.c: looking an action up by its
 * configuration name, the two key maps of vlc_actions_t (the binary tree
 * of struct mapping entries that tsearch grows), how init_action fills
 * them from the "key-*" and "global-key-*" variables, the mouse-wheel
 * bindings, and the subtitle-synchronisation bookmarks the dispatcher
 * keeps in vlc_actions_t.
 */
module ActionMap {
  import opened Wrappers
  import opened Seqs
  import opened CStrings
  import opened Keys
  import opened ActionTable
  import KeyCodec

  /** EEXIST of errno.h. */
  const EExist: int := 17

  /**
   * vlc_actions_get_id: the action whose table name follows a "key-"
   * prefix, ACTIONID_NONE for any other name.
   */
  function GetActionId(name: string): (r: ActionId)
    ensures r != ActionNone <==> |name| >= 4 && name[..4] == "key-" && name[4..] in ActionNames
    ensures r != ActionNone ==>
      exists i | 0 <= i < |ActionNames| :: ActionNames[i] == name[4..] && ActionIds[i] == r
  {
    ActionTableFacts();
    if |name| < 4 || name[..4] != "key-" then ActionNone
    else match IndexOf(ActionNames, name[4..])
      case None => ActionNone
      case Some(i) => ActionIds[i]
  }

  /** Every table entry is found under its own name: the lookup inverts the table. */
  lemma GetActionIdOfEntry(i: nat)
    requires i < |ActionNames|
    ensures GetActionId("key-" + ActionNames[i]) == ActionIds[i]
  {
    ActionTableFacts();
    var name := "key-" + ActionNames[i];
    assert name[..4] == "key-" && name[4..] == ActionNames[i];
    var j := IndexOf(ActionNames, ActionNames[i]).value;
    SortedDistinct(ActionNames, i, j);
  }

  /** vlc_actions_get_id: the strncmp against "key-", then bsearch with strcmp. */
  method ActionsGetId(name: string) returns (id: ActionId)
    ensures id == GetActionId(name)
  {
    if |name| < 4 || name[..4] != "key-" {
      return ActionNone;
    }
    ActionTableFacts();
    var found := BinarySearch(ActionNames, name[4..]);
    if found.Some? {
      var j := IndexOf(ActionNames, name[4..]).value;
      SortedDistinct(ActionNames, found.value, j);
      id := ActionIds[found.value];
    } else {
      id := ActionNone;
    }
  }

  /**
   * The order check libvlc_InternalActionsInit makes on the table before
   * it reads the configuration (it aborts on the first pair out of order).
   */
  method CheckOrder(names: seq<string>) returns (ok: bool)
    ensures ok <==> StrictlySorted(names)
  {
    if |names| == 0 {
      return true;
    }
    for i := 1 to |names|
      invariant forall k | 0 < k < i :: StrLess(names[k - 1], names[k])
    {
      StrCmpOrder(names[i - 1], names[i]);
      if StrCmp(names[i - 1], names[i]) >= 0 {
        return false;
      }
    }
    return true;
  }

  /** The table passes that check, so initialisation never aborts. */
  lemma TableInOrder()
    ensures StrictlySorted(ActionNames)
  {
    ActionTableFacts();
  }

  /**
   * The variable names libvlc_InternalActionsInit prints into its
   * 12 + MAXACTION byte buffer fit with their NUL: snprintf never truncates.
   */
  lemma GlobalKeyNamesFit()
    ensures forall i | 0 <= i < |ActionNames| :: |"global-key-" + ActionNames[i]| + 1 <= 12 + MaxAction
  {
    ActionTableFacts();
  }

  /** Seven bytes into "global-key-" + n starts "key-" + n. */
  lemma GlobalKeySuffix(n: string)
    ensures ("global-key-" + n)[7..] == "key-" + n
  {
  }

  /** The contents of a key map: the action bound to each key code. */
  type Bindings = map<uint32, ActionId>

  /**
   * add_mapping on the contents: a key code that is already bound keeps
   * its action (the first binding wins); a new one gets the action.
   */
  function Bind(m: Bindings, key: uint32, action: ActionId): (r: Bindings)
    ensures key in r && r[key] == (if key in m then m[key] else action)
    ensures forall c | c != key :: (c in r <==> c in m)
    ensures forall c | c != key && c in m :: r[c] == m[c]
  {
    if key in m then m else m[key := action]
  }

  /** The bindings init_action adds for one action, one code after the other. */
  function BindAll(m: Bindings, codes: seq<uint32>, action: ActionId): Bindings
    decreases |codes|
  {
    if |codes| == 0 then m else BindAll(Bind(m, codes[0], action), codes[1..], action)
  }

  /**
   * Binding a list of codes keeps every earlier binding, binds exactly the
   * listed codes besides, and binds them all to the action.
   */
  lemma {:induction false} BindAllSpec(m: Bindings, codes: seq<uint32>, action: ActionId)
    ensures forall c | c in m :: c in BindAll(m, codes, action) && BindAll(m, codes, action)[c] == m[c]
    ensures forall c :: c in BindAll(m, codes, action) <==> c in m || c in codes
    ensures forall c | c in BindAll(m, codes, action) && c !in m :: BindAll(m, codes, action)[c] == action
    decreases |codes|
  {
    if |codes| > 0 {
      BindAllSpec(Bind(m, codes[0], action), codes[1..], action);
      assert codes == [codes[0]] + codes[1..];
    }
  }

  /** The codes of init_action's tokens, in order, with those that parse to KEY_UNSET left out. */
  function TokenCodes(ts: seq<string>): (cs: seq<uint32>)
    requires forall t | t in ts :: KeyCodec.IsCString(t)
    ensures KeyUnset !in cs
    ensures forall c | c in cs :: exists t | t in ts :: KeyCodec.ParseKey(t) == c
    decreases |ts|
  {
    if |ts| == 0 then []
    else
      var c := KeyCodec.ParseKey(ts[0]);
      assert forall t | t in ts[1..] :: t in ts;
      (if c == KeyUnset then [] else [c]) + TokenCodes(ts[1..])
  }

  lemma TokenCodesAt(ts: seq<string>, i: nat)
    requires forall t | t in ts :: KeyCodec.IsCString(t)
    requires i < |ts|
    ensures forall t | t in ts[i..] :: KeyCodec.IsCString(t)
    ensures forall t | t in ts[i + 1..] :: KeyCodec.IsCString(t)
    ensures TokenCodes(ts[i..]) ==
      (if KeyCodec.ParseKey(ts[i]) == KeyUnset then [] else [KeyCodec.ParseKey(ts[i])]) + TokenCodes(ts[i + 1..])
  {
    assert ts[i..][0] == ts[i];
    assert ts[i..][1..] == ts[i + 1..];
  }

  lemma BindAllCons(m: Bindings, c: uint32, rest: seq<uint32>, action: ActionId)
    ensures BindAll(m, [c] + rest, action) == BindAll(Bind(m, c, action), rest, action)
  {
    assert ([c] + rest)[1..] == rest;
  }

  lemma CStringPrefix(s: string, n: nat)
    requires KeyCodec.IsCString(s) && n <= |s|
    ensures KeyCodec.IsCString(s[..n])
  {
    forall i | 0 <= i < n ensures 0 < s[..n][i] as int < 256 {
      assert s[..n][i] == s[i];
    }
  }

  /** strtok_r cuts a C string into C strings. */
  lemma {:induction false} TokensCString(s: string)
    requires KeyCodec.IsCString(s)
    ensures forall t | t in Tokens(s) :: KeyCodec.IsCString(t)
    decreases |s|
  {
    if |s| == 0 {
    } else if s[0] == '\t' {
      KeyCodec.CStringSuffix(s, 1);
      TokensCString(s[1..]);
    } else {
      var n := FieldSpan(s);
      CStringPrefix(s, n);
      KeyCodec.CStringSuffix(s, n);
      TokensCString(s[n..]);
    }
  }

  /**
   * The codes one configuration value binds: those its tab-separated keys
   * parse to, none when the variable is unset.
   */
  function ConfigCodes(keys: Option<string>): (cs: seq<uint32>)
    requires keys.Some? ==> KeyCodec.IsCString(keys.value)
    ensures KeyUnset !in cs
  {
    match keys
    case None => []
    case Some(s) => TokensCString(s); TokenCodes(Tokens(s))
  }

  /** The key codes add_wheel_mapping binds for "more" and "less", by wheel mode. */
  function WheelActions(mode: int): (r: (ActionId, ActionId))
    ensures r.0 != ActionNone <==> mode == 0 || mode == 2 || mode == 3
    ensures r.1 != ActionNone <==> mode == 0 || mode == 2 || mode == 3
    ensures r.0 != ActionNone ==> r.0 != r.1
  {
    if mode == 0 then (ComboVolFovUp, ComboVolFovDown)
    else if mode == 2 then (JumpForwardExtrashort, JumpBackwardExtrashort)
    else if mode == 3 then (JumpBackwardExtrashort, JumpForwardExtrashort)
    else (ActionNone, ActionNone)
  }

  /** Mode 3 is mode 2 with the directions swapped. */
  lemma WheelReversed()
    ensures WheelActions(3) == (WheelActions(2).1, WheelActions(2).0)
  {
  }

  /** add_wheel_mapping on the contents. */
  function WheelBind(m: Bindings, kmore: uint32, kless: uint32, mode: int): Bindings
  {
    var (amore, aless) := WheelActions(mode);
    var m1 := if amore != ActionNone then Bind(m, kmore, amore) else m;
    if aless != ActionNone then Bind(m1, kless, aless) else m1
  }

  /**
   * A wheel mode other than 0, 2 and 3 binds nothing; the others bind the
   * two directions to their actions unless they are already bound, and
   * touch no other key code.
   */
  lemma WheelBindSpec(m: Bindings, kmore: uint32, kless: uint32, mode: int)
    requires kmore != kless
    ensures mode != 0 && mode != 2 && mode != 3 ==> WheelBind(m, kmore, kless, mode) == m
    ensures mode == 0 || mode == 2 || mode == 3 ==>
      var r := WheelBind(m, kmore, kless, mode);
      kmore in r && r[kmore] == (if kmore in m then m[kmore] else WheelActions(mode).0) &&
      kless in r && r[kless] == (if kless in m then m[kless] else WheelActions(mode).1)
    ensures forall c | c != kmore && c != kless ::
      (c in WheelBind(m, kmore, kless, mode) <==> c in m) &&
      (c in m ==> WheelBind(m, kmore, kless, mode)[c] == m[c])
  {
  }

  /** The variables libvlc_InternalActionsInit reads with var_InheritString. */
  type Config = map<string, string>

  predicate ConfigValid(config: Config)
  {
    forall n | n in config :: KeyCodec.IsCString(config[n])
  }

  /** var_InheritString: the value of a variable, NULL when it is unset. */
  function Inherit(config: Config, name: string): (r: Option<string>)
    requires ConfigValid(config)
    ensures r.Some? ==> KeyCodec.IsCString(r.value)
  {
    if name in config then Some(config[name]) else None
  }

  /** The codes each entry's variable prefix + names[i] lists, entry by entry. */
  function ConfigLists(config: Config, prefix: string, names: seq<string>): (r: seq<seq<uint32>>)
    requires ConfigValid(config)
    ensures |r| == |names|
    ensures forall i | 0 <= i < |names| :: r[i] == ConfigCodes(Inherit(config, prefix + names[i]))
    ensures forall i | 0 <= i < |r| :: KeyUnset !in r[i]
    ensures forall i | 0 <= i < |names| && prefix + names[i] !in config :: r[i] == []
  {
    seq(|names|, i requires 0 <= i < |names| => ConfigCodes(Inherit(config, prefix + names[i])))
  }

  /** The key map after the initialisation loop has bound the codes of the first n entries. */
  function TableBindings(lists: seq<seq<uint32>>, ids: seq<ActionId>, n: nat): Bindings
    requires n <= |lists| == |ids|
  {
    if n == 0 then map[]
    else BindAll(TableBindings(lists, ids, n - 1), lists[n - 1], ids[n - 1])
  }

  /**
   * In the initial key map a code is bound exactly when some entry lists
   * it, and to the action of the first entry that does.
   */
  lemma {:induction false} TableBindingsSpec(lists: seq<seq<uint32>>, ids: seq<ActionId>, n: nat, c: uint32)
    requires n <= |lists| == |ids|
    ensures c in TableBindings(lists, ids, n) <==> exists i | 0 <= i < n :: c in lists[i]
    ensures forall i | 0 <= i < n && c in lists[i] && (forall j | 0 <= j < i :: c !in lists[j]) ::
              c in TableBindings(lists, ids, n) && TableBindings(lists, ids, n)[c] == ids[i]
  {
    if n > 0 {
      var prev := TableBindings(lists, ids, n - 1);
      TableBindingsSpec(lists, ids, n - 1, c);
      BindAllSpec(prev, lists[n - 1], ids[n - 1]);
      forall i | 0 <= i < n && c in lists[i] && (forall j | 0 <= j < i :: c !in lists[j])
        ensures c in BindAll(prev, lists[n - 1], ids[n - 1]) && BindAll(prev, lists[n - 1], ids[n - 1])[c] == ids[i]
      {
        if i == n - 1 {
          assert c !in prev;
        } else {
          assert c in prev && prev[c] == ids[i];
        }
      }
    }
  }

  /** A code no entry lists, KEY_UNSET among them, stays unbound. */
  lemma {:induction false} TableUnsetFree(lists: seq<seq<uint32>>, ids: seq<ActionId>, n: nat)
    requires n <= |lists| == |ids|
    requires forall i | 0 <= i < |lists| :: KeyUnset !in lists[i]
    ensures KeyUnset !in TableBindings(lists, ids, n)
  {
    if n > 0 {
      TableUnsetFree(lists, ids, n - 1);
      BindAllSpec(TableBindings(lists, ids, n - 1), lists[n - 1], ids[n - 1]);
    }
  }

  /** The map the variables prefix + each action name fill, read in table order. */
  function InitialBindings(config: Config, prefix: string): Bindings
    requires ConfigValid(config)
  {
    ActionTableSize();
    TableBindings(ConfigLists(config, prefix, ActionNames), ActionIds, |ActionNames|)
  }

  /**
   * In the map the configuration fills, a code is bound to the action of
   * the first table entry whose variable lists it.
   */
  lemma InitialBindingsFirst(config: Config, prefix: string, c: uint32, i: nat)
    requires ConfigValid(config) && i < |ActionNames| && i < |ActionIds|
    requires c in ConfigCodes(Inherit(config, prefix + ActionNames[i]))
    requires forall j | 0 <= j < i :: c !in ConfigCodes(Inherit(config, prefix + ActionNames[j]))
    ensures c in InitialBindings(config, prefix) && InitialBindings(config, prefix)[c] == ActionIds[i]
  {
    ActionTableSize();
    TableBindingsSpec(ConfigLists(config, prefix, ActionNames), ActionIds, |ActionNames|, c);
  }

  /** The configuration never binds KEY_UNSET. */
  lemma InitialBindingsUnset(config: Config, prefix: string)
    requires ConfigValid(config)
    ensures KeyUnset !in InitialBindings(config, prefix)
  {
    ActionTableSize();
    TableUnsetFree(ConfigLists(config, prefix, ActionNames), ActionIds, |ActionNames|);
  }

  /** The two wheel axes as libvlc_InternalActionsInit binds them, horizontal first. */
  function WheelsBind(m: Bindings, xmode: int, ymode: int): Bindings
  {
    WheelBind(WheelBind(m, KeyMousewheelright, KeyMousewheelleft, xmode),
              KeyMousewheelup, KeyMousewheeldown, ymode)
  }

  /**
   * vlc_actions_get_keycode: vlc_str2keycode of the whole value of the
   * variable [global-]key-name, KEY_UNSET when the variable is unset.
   */
  function GetKeycode(config: Config, keyName: string, global: bool): (code: uint32)
    requires ConfigValid(config)
    ensures Inherit(config, (if global then "global-" else "") + "key-" + keyName).None? ==> code == KeyUnset
    ensures code < 0x2000_0000 && (KeyOf(code) == KeyUnset ==> code == KeyUnset)
  {
    match Inherit(config, (if global then "global-" else "") + "key-" + keyName)
    case None => KeyUnset
    case Some(v) => KeyCodec.ParseKeyUnset(v); KeyCodec.ParseKey(v)
  }

  /**
   * A key saved the way vlc_keycode2str prints it, untranslated, is read
   * back as the same code.
   */
  lemma GetKeycodeOfSaved(config: Config, keyName: string, global: bool, code: uint32)
    requires ConfigValid(config)
    requires code < 0x2000_0000
    requires KeyOf(code) != KeyUnset && (KeyOf(code) in KeyCodes || KeyOf(code) < 0x11_0000)
    requires Inherit(config, (if global then "global-" else "") + "key-" + keyName)
          == KeyCodec.FormatKey(code, KeyCodec.NoopText)
    ensures GetKeycode(config, keyName, global) == code
  {
    KeyCodec.Keycode2StrParse(code);
  }

  /** One key map: a tree of struct mapping entries ordered by keycmp. */
  class KeyMap {
    var bindings: Bindings

    constructor()
      ensures bindings == map[]
    {
      bindings := map[];
    }

    /** tfind: the action bound to a key code. */
    function Lookup(key: uint32): (r: Option<ActionId>)
      reads this
      ensures r.Some? <==> key in bindings
      ensures r.Some? ==> r.value == bindings[key]
    {
      if key in bindings then Some(bindings[key]) else None
    }

    /**
     * add_mapping: 0 when the code was new and is now bound to the
     * action, EEXIST when it was already bound and keeps its action.
     */
    method AddMapping(key: uint32, action: ActionId) returns (err: int)
      modifies this
      ensures bindings == Bind(old(bindings), key, action)
      ensures err == 0 <==> key !in old(bindings)
      ensures err == 0 || err == EExist
    {
      if key in bindings {
        return EExist;
      }
      bindings := bindings[key := action];
      return 0;
    }

    /**
     * vlc_key_to_action: the action it sets on "key-action" for a key
     * code, None when the code is unbound (it then still succeeds).
     */
    method KeyToAction(key: uint32) returns (action: Option<ActionId>)
      ensures action.None? <==> key !in bindings
      ensures action.Some? ==> key in bindings && action.value == bindings[key]
    {
      action := Lookup(key);
    }

    /** add_wheel_mapping. */
    method AddWheelMapping(kmore: uint32, kless: uint32, mode: int)
      modifies this
      ensures bindings == WheelBind(old(bindings), kmore, kless, mode)
    {
      var amore, aless := WheelActions(mode).0, WheelActions(mode).1;
      var err;
      if amore != ActionNone {
        err := AddMapping(kmore, amore);
      }
      if aless != ActionNone {
        err := AddMapping(kless, aless);
      }
    }

    /**
     * init_action: binds each tab-separated key of the variable's value to
     * the action, skipping keys that parse to KEY_UNSET and keys already
     * bound; an unset variable binds nothing.
     */
    method InitAction(keys: Option<string>, action: ActionId)
      requires keys.Some? ==> KeyCodec.IsCString(keys.value)
      modifies this
      ensures bindings == BindAll(old(bindings), ConfigCodes(keys), action)
    {
      if keys.None? {
        return;
      }
      var s := keys.value;
      TokensCString(s);
      var ts := Tokens(s);
      assert ts[0..] == ts;
      for i := 0 to |ts|
        invariant BindAll(bindings, TokenCodes(ts[i..]), action) == BindAll(old(bindings), TokenCodes(ts), action)
      {
        TokenCodesAt(ts, i);
        var code := KeyCodec.Str2Keycode(ts[i]);
        if code == KeyUnset {
          assert TokenCodes(ts[i..]) == TokenCodes(ts[i + 1..]);
          continue;
        }
        assert TokenCodes(ts[i..]) == [code] + TokenCodes(ts[i + 1..]);
        BindAllCons(bindings, code, TokenCodes(ts[i + 1..]), action);
        var err := AddMapping(code, action);
        assert BindAll(bindings, TokenCodes(ts[i + 1..]), action) == BindAll(old(bindings), TokenCodes(ts), action);
      }
      assert ts[|ts|..] == [];
    }
  }

  /**
   * The loop of libvlc_InternalActionsInit over a table of names and
   * actions: for each entry, init_action on the key map with the variable
   * "key-" + name and on the global map with "global-key-" + name.
   */
  method ReadTable(m: KeyMap, g: KeyMap, config: Config, names: seq<string>, ids: seq<ActionId>)
    requires m != g && m.bindings == map[] && g.bindings == map[]
    requires ConfigValid(config) && |names| == |ids|
    modifies m, g
    ensures m.bindings == TableBindings(ConfigLists(config, "key-", names), ids, |names|)
    ensures g.bindings == TableBindings(ConfigLists(config, "global-key-", names), ids, |names|)
  {
    var lists, globalLists := ConfigLists(config, "key-", names), ConfigLists(config, "global-key-", names);
    for i := 0 to |names|
      invariant m.bindings == TableBindings(lists, ids, i)
      invariant g.bindings == TableBindings(globalLists, ids, i)
    {
      GlobalKeySuffix(names[i]);
      var name := "global-key-" + names[i];
      m.InitAction(Inherit(config, name[7..]), ids[i]);
      g.InitAction(Inherit(config, name), ids[i]);
    }
  }

  /** vlc_actions_t: the two key maps, the names list and the subtitle sync bookmarks. */
  class Actions {
    var keyMap: KeyMap
    var globalMap: KeyMap
    var keyNames: seq<string>
    var timeSubtitle: int
    var timeAudio: int

    /**
     * libvlc_InternalActionsInit: each action's "key-" variable fills the
     * key map and its "global-key-" variable the global one, in table
     * order; then the horizontal and vertical wheels are bound by their
     * modes; both bookmarks start at 0.
     */
    constructor Init(config: Config, xmode: int, ymode: int)
      requires ConfigValid(config)
      ensures fresh(keyMap) && fresh(globalMap) && keyMap != globalMap
      ensures keyMap.bindings == WheelsBind(InitialBindings(config, "key-"), xmode, ymode)
      ensures globalMap.bindings == InitialBindings(config, "global-key-")
      ensures keyNames == ActionNames
      ensures timeSubtitle == 0 && timeAudio == 0
    {
      ActionTableSize();
      var m := new KeyMap();
      var g := new KeyMap();
      ReadTable(m, g, config, ActionNames, ActionIds);
      m.AddWheelMapping(KeyMousewheelright, KeyMousewheelleft, xmode);
      m.AddWheelMapping(KeyMousewheelup, KeyMousewheeldown, ymode);
      keyMap := m;
      globalMap := g;
      keyNames := ActionNames;
      timeSubtitle := 0;
      timeAudio := 0;
    }

    /** vlc_actions_get_key_names. */
    function KeyNames(): (r: seq<string>)
      reads this
      ensures r == keyNames
    {
      keyNames
    }

    /** ACTIONID_SUBSYNC_MARKAUDIO: bookmarks the audio time. */
    method MarkAudio(now: int)
      modifies this
      ensures timeAudio == now && timeSubtitle == old(timeSubtitle)
      ensures keyMap == old(keyMap) && globalMap == old(globalMap) && keyNames == old(keyNames)
    {
      timeAudio := now;
    }

    /**
     * ACTIONID_SUBSYNC_MARKSUB: bookmarks the subtitle time when there is
     * an input with at least one subtitle choice and a selected track.
     */
    method MarkSubtitle(now: int, hasInput: bool, choices: int, track: int)
      modifies this
      ensures timeSubtitle == (if hasInput && choices >= 1 && track >= 0 then now else old(timeSubtitle))
      ensures timeAudio == old(timeAudio)
      ensures keyMap == old(keyMap) && globalMap == old(globalMap) && keyNames == old(keyNames)
    {
      if hasInput {
        if choices < 1 || track < 0 {
          return;
        }
        timeSubtitle := now;
      }
    }

    /**
     * ACTIONID_SUBSYNC_APPLY: with an input and both bookmarks set, the
     * new subtitle delay, after which both bookmarks are cleared; None,
     * and nothing changes, otherwise.
     */
    method ApplySubsync(hasInput: bool, delay: int) returns (newDelay: Option<int>)
      modifies this
      ensures newDelay == SubsyncDelay(hasInput, old(timeAudio), old(timeSubtitle), delay)
      ensures newDelay.Some? ==> timeAudio == 0 && timeSubtitle == 0
      ensures newDelay.None? ==> timeAudio == old(timeAudio) && timeSubtitle == old(timeSubtitle)
      ensures keyMap == old(keyMap) && globalMap == old(globalMap) && keyNames == old(keyNames)
    {
      newDelay := None;
      if hasInput {
        if timeAudio == 0 || timeSubtitle == 0 {
          return;
        }
        var additional := timeAudio - timeSubtitle;
        newDelay := Some(delay + additional);
        timeAudio := 0;
        timeSubtitle := 0;
      }
    }

    /** ACTIONID_SUBSYNC_RESET: the delay becomes 0 and both bookmarks are cleared. */
    method ResetSubsync() returns (newDelay: int)
      modifies this
      ensures newDelay == 0 && timeAudio == 0 && timeSubtitle == 0
      ensures keyMap == old(keyMap) && globalMap == old(globalMap) && keyNames == old(keyNames)
    {
      newDelay := 0;
      timeAudio := 0;
      timeSubtitle := 0;
    }
  }

  /**
   * The delay ACTIONID_SUBSYNC_APPLY sets: the current delay plus the gap
   * from the subtitle bookmark to the audio one, when there is an input
   * and neither bookmark is 0.
   */
  function SubsyncDelay(hasInput: bool, audio: int, subtitle: int, delay: int): (r: Option<int>)
    ensures r.Some? <==> hasInput && audio != 0 && subtitle != 0
    ensures r.Some? ==> r.value - delay == audio - subtitle
  {
    if hasInput && audio != 0 && subtitle != 0 then Some(delay + (audio - subtitle)) else None
  }
}
