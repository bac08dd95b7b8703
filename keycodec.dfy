/**
 * vlc_str2keycode and vlc_keycode2str (src/misc/actions.c): the parser of
 * human-readable key names such as "Ctrl+Alt+Page Down" and the formatter
 * that produces them, with the round trip between the two.
 */
module KeyCodec {
  import opened Wrappers
  import opened CStrings
  import opened Seqs
  import opened Keys
  import Utf8

  /** A C string: every char is a byte other than NUL. */
  predicate IsCString(s: string)
  {
    forall i | 0 <= i < |s| :: 0 < s[i] as int < 256
  }

  /** The bytes of a C string. */
  function Bytes(s: string): (b: seq<Utf8.byte>)
    requires IsCString(s)
    ensures |b| == |s| && forall i | 0 <= i < |s| :: b[i] == s[i] as int
  {
    seq(|s|, i requires 0 <= i < |s| => s[i] as int as Utf8.byte)
  }

  /** The C string of some bytes. */
  function Chars(b: seq<Utf8.byte>): (s: string)
    ensures |s| == |b| && forall i | 0 <= i < |b| :: s[i] as int == b[i]
  {
    seq(|b|, i requires 0 <= i < |b| => b[i] as char)
  }

  lemma CStringSuffix(s: string, k: nat)
    requires IsCString(s) && k <= |s|
    ensures IsCString(s[k..])
  {
    forall i | 0 <= i < |s[k..]| ensures 0 < s[k..][i] as int < 256 {
      assert s[k..][i] == s[k + i];
    }
  }

  /**
   * One pass of the segmenting loop: the segment adds the modifier it
   * names in any letter case (Ctrl, Alt, Shift, Meta or Command); any
   * other word adds nothing.
   */
  function AddModifiers(m: Modifiers, word: string): Modifiers
  {
    Modifiers(m.alt || EqualsIgnoreCase(word, "Alt"),
              m.shift || EqualsIgnoreCase(word, "Shift"),
              m.ctrl || EqualsIgnoreCase(word, "Ctrl"),
              m.meta || EqualsIgnoreCase(word, "Meta"),
              m.command || EqualsIgnoreCase(word, "Command"))
  }

  /**
   * The segmenting loop of vlc_str2keycode from offset k and modifiers
   * mods on: the modifiers gathered while a '-' or '+' follows the
   * segment, and the offset where the rest of the name starts. An empty
   * segment also stops it, so "Ctrl++" ends on the last "+".
   */
  function SplitModifiers(name: string, k: nat, mods: Modifiers): (r: (Modifiers, nat))
    requires k <= |name|
    ensures k <= r.1 <= |name|
    decreases |name| - k
  {
    var j := SepFrom(name, k);
    if j == k || j == |name| then (mods, k)
    else SplitModifiers(name, j + 1, AddModifiers(mods, name[k..j]))
  }

  /** The code s_keys gives a name, when some entry has that name. */
  function KeyByName(name: string): (r: Option<uint32>)
    ensures r.Some? <==> name in KeyNames
    ensures r.Some? ==> r.value < ModAlt
  {
    KeyTable();
    match IndexOf(KeyNames, name)
    case None => None
    case Some(i) => Some(KeyCodes[i])
  }

  /** The code point vlc_towc reads at the start of a name, when it reads one. */
  function Towc(name: string): (r: Option<uint32>)
    requires IsCString(name)
    ensures r.Some? ==> 0 < r.value < 0x11_0000
  {
    match Utf8.DecodeFirst(Bytes(name))
    case CodePoint(cp, _) => Some(cp)
    case _ => None
  }

  /**
   * The code of the name that follows the modifiers: its s_keys entry,
   * else the one code point vlc_towc reads, else KEY_UNSET.
   */
  function LookupKey(last: string): (c: uint32)
    requires IsCString(last)
    ensures c < ModAlt
  {
    match KeyByName(last)
    case Some(c) => c
    case None => match Towc(last) case Some(cp) => cp case None => KeyUnset
  }

  /**
   * What vlc_str2keycode returns: the modifiers of the leading segments
   * or-ed into the code of the rest, except into KEY_UNSET. The code has
   * no modifier bit, so the or is a sum.
   */
  function ParseKey(name: string): uint32
    requires IsCString(name)
  {
    var (mods, start) := SplitModifiers(name, 0, NoModifiers);
    CStringSuffix(name, start);
    var code := LookupKey(name[start..]);
    if code != KeyUnset then code + ModBits(mods) else code
  }

  /** The five strncasecmp tests vlc_str2keycode makes on a segment. */
  method ScanModifier(mods: Modifiers, word: string) returns (m: Modifiers)
    ensures m == AddModifiers(mods, word)
  {
    var len := |word|;
    m := mods;
    if len == 4 && EqualsIgnoreCase(word, "Ctrl") {
      m := m.(ctrl := true);
    }
    if len == 3 && EqualsIgnoreCase(word, "Alt") {
      m := m.(alt := true);
    }
    if len == 5 && EqualsIgnoreCase(word, "Shift") {
      m := m.(shift := true);
    }
    if len == 4 && EqualsIgnoreCase(word, "Meta") {
      m := m.(meta := true);
    }
    if len == 7 && EqualsIgnoreCase(word, "Command") {
      m := m.(command := true);
    }
  }

  /** The bsearch of s_keys in vlc_str2keycode, with vlc_towc as the fallback. */
  method FindKey(last: string) returns (code: uint32)
    requires IsCString(last)
    ensures code == LookupKey(last)
  {
    KeyTable();
    var found := BinarySearch(KeyNames, last);
    if found.Some? {
      var j := IndexOf(KeyNames, last).value;
      SortedDistinct(KeyNames, found.value, j);
      code := KeyCodes[found.value];
    } else {
      var t := Towc(last);
      code := if t.Some? then t.value else KeyUnset;
    }
  }

  /** ParseKey once the segmenting loop has stopped at offset k with modifiers mods. */
  lemma ParseKeyAt(name: string, k: nat, mods: Modifiers)
    requires IsCString(name) && k <= |name|
    requires (mods, k) == SplitModifiers(name, 0, NoModifiers)
    ensures IsCString(name[k..])
    ensures ParseKey(name) == if LookupKey(name[k..]) != KeyUnset then LookupKey(name[k..]) + ModBits(mods) else KeyUnset
  {
    CStringSuffix(name, k);
  }

  /** vlc_str2keycode: gathers the modifier of each segment, then looks the rest up. */
  method Str2Keycode(name: string) returns (code: uint32)
    requires IsCString(name)
    ensures code == ParseKey(name)
  {
    var mods, k := ScanModifiers(name);
    ParseKeyAt(name, k, mods);
    code := FindKey(name[k..]);
    if code != KeyUnset {
      code := code + ModBits(mods);
    }
  }

  /** The for (;;) loop of vlc_str2keycode; name + k is where it has got to. */
  method ScanModifiers(name: string) returns (mods: Modifiers, k: nat)
    ensures (mods, k) == SplitModifiers(name, 0, NoModifiers)
    ensures SepFrom(name, k) == k || SepFrom(name, k) == |name|
  {
    mods := NoModifiers;
    k := 0;
    while true
      invariant k <= |name|
      invariant SplitModifiers(name, k, mods) == SplitModifiers(name, 0, NoModifiers)
      decreases |name| - k
    {
      var j := SepFrom(name, k);
      if j == k || j == |name| {
        break;
      }
      SplitStep(name, k, mods);
      mods := ScanModifier(mods, name[k..j]);
      k := j + 1;
    }
  }

  /** gettext when a localised name is asked for, nooptext otherwise. */
  function NoopText(s: string): string { s }

  /** The five modifiers, each with its word. */
  datatype ModifierKey = CtrlKey | AltKey | ShiftKey | MetaKey | CommandKey

  function Word(k: ModifierKey): (w: string)
    ensures |w| > 0 && '-' !in w && '+' !in w
  {
    match k
    case CtrlKey => "Ctrl"
    case AltKey => "Alt"
    case ShiftKey => "Shift"
    case MetaKey => "Meta"
    case CommandKey => "Command"
  }

  /** The set m with the flag of k raised: mods |= KEY_MODIFIER_<k>. */
  function With(m: Modifiers, k: ModifierKey): Modifiers
  {
    Modifiers(m.alt || k == AltKey, m.shift || k == ShiftKey, m.ctrl || k == CtrlKey,
              m.meta || k == MetaKey, m.command || k == CommandKey)
  }

  /** The modifiers vlc_keycode2str prints, always in the order Ctrl, Alt, Shift, Meta, Command. */
  function Printed(m: Modifiers): seq<ModifierKey>
  {
    (if m.ctrl then [CtrlKey] else []) + (if m.alt then [AltKey] else []) +
    (if m.shift then [ShiftKey] else []) + (if m.meta then [MetaKey] else []) +
    (if m.command then [CommandKey] else [])
  }

  /** The "Ctrl+", "Alt+" ... prefixes of some modifiers, each passed through tr. */
  function Prefix(ks: seq<ModifierKey>, tr: string -> string): string
  {
    if |ks| == 0 then "" else tr(Word(ks[0]) + "+") + Prefix(ks[1..], tr)
  }

  /** The name vlc_keycode2str prints for a key without modifiers: its first s_keys entry, else its UTF-8. */
  function KeyName(key: uint32): Option<string>
  {
    match IndexOf(KeyCodes, key)
    case Some(i) => (KeyTable(); Some(KeyNames[i]))
    case None =>
      match Utf8.Encode(key)
      case Some(b) => Some(Chars(b))
      case None => None
  }

  /** What vlc_keycode2str returns: the prefixes of the code's modifiers, then the name of its key. */
  function FormatKey(code: uint32, tr: string -> string): Option<string>
  {
    match KeyName(KeyOf(code))
    case None => None
    case Some(name) => Some(Prefix(Printed(ModifiersOf(code)), tr) + tr(name))
  }

  /** The bytes of a NUL-terminated buffer up to its first NUL. */
  function UntilNul(b: seq<Utf8.byte>): seq<Utf8.byte>
  {
    match IndexOf(b, 0)
    case Some(n) => b[..n]
    case None => b
  }

  lemma UntilNulOf(b: seq<Utf8.byte>, e: seq<Utf8.byte>)
    requires |e| < |b| && b[..|e| + 1] == e + [0]
    requires forall i | 0 <= i < |e| :: e[i] != 0
    ensures UntilNul(b) == e
  {
    assert b[|e|] == 0;
    assert forall j | 0 <= j < |e| :: b[j] == e[j] by {
      forall j | 0 <= j < |e| ensures b[j] == e[j] {
        assert b[j] == b[..|e| + 1][j];
      }
    }
  }

  /**
   * vlc_keycode2str: the linear search of s_keys for the key, utf8_cp
   * into a five-byte buffer when no entry has it, then the formatted name.
   * It fails exactly when the key has no entry and is past the range
   * utf8_cp encodes.
   */
  method Keycode2Str(code: uint32, tr: string -> string) returns (r: Option<string>)
    ensures r == FormatKey(code, tr)
    ensures r.None? <==> KeyOf(code) !in KeyCodes && KeyOf(code) >= 0x20_0000
  {
    var key := KeyOf(code);
    var found := Find(KeyCodes, key);
    KeyTable();
    Utf8.EncodeLength(key);
    var name;
    if found.Some? {
      name := KeyNames[found.value];
    } else {
      var buf := new Utf8.byte[5];
      var ok := Utf8.Utf8Cp(key, buf);
      if !ok {
        return None;
      }
      var e := Utf8.Encode(key).value;
      assert key != KeyUnset by { KeyUnsetNamed(); }
      Utf8.EncodeShape(key);
      UntilNulOf(buf[..], e);
      name := Chars(UntilNul(buf[..]));
    }
    r := Some(Prefix(Printed(ModifiersOf(code)), tr) + tr(name));
  }

  /** The modifiers the segmenting loop gathers from the words of ks, one after the other. */
  function WithAll(m: Modifiers, ks: seq<ModifierKey>): Modifiers
    decreases |ks|
  {
    if |ks| == 0 then m else WithAll(With(m, ks[0]), ks[1..])
  }

  /** Every word equals itself ignoring case. */
  lemma {:induction false} EqualsIgnoreCaseSelf(w: string)
    ensures EqualsIgnoreCase(w, w)
  {
    if |w| > 0 {
      EqualsIgnoreCaseSelf(w[1..]);
    }
  }

  /** A modifier's own word, in the case it is printed in, raises its flag and no other. */
  lemma WordSets(m: Modifiers, k: ModifierKey)
    ensures |Word(k)| > 0 && '-' !in Word(k) && '+' !in Word(k)
    ensures AddModifiers(m, Word(k)) == With(m, k)
  {
    match k
    case CtrlKey => WordSetsCtrl(m);
    case AltKey => WordSetsOther(m, k);
    case ShiftKey => WordSetsOther(m, k);
    case MetaKey => WordSetsMeta(m);
    case CommandKey => WordSetsOther(m, k);
  }

  /** Ctrl and Meta have the same length, so they differ only by their letters. */
  lemma WordSetsCtrl(m: Modifiers)
    ensures AddModifiers(m, "Ctrl") == With(m, CtrlKey)
  {
    EqualsIgnoreCaseSelf("Ctrl");
    assert !EqualsIgnoreCase("Ctrl", "Meta") by { assert ToLower("Ctrl"[0]) != ToLower("Meta"[0]); }
  }

  lemma WordSetsMeta(m: Modifiers)
    ensures AddModifiers(m, "Meta") == With(m, MetaKey)
  {
    EqualsIgnoreCaseSelf("Meta");
    assert !EqualsIgnoreCase("Meta", "Ctrl") by { assert ToLower("Meta"[0]) != ToLower("Ctrl"[0]); }
  }

  /** Alt, Shift and Command differ from every other word in length. */
  lemma WordSetsOther(m: Modifiers, k: ModifierKey)
    requires k == AltKey || k == ShiftKey || k == CommandKey
    ensures AddModifiers(m, Word(k)) == With(m, k)
  {
    EqualsIgnoreCaseSelf(Word(k));
  }

  /** One turn of the segmenting loop. */
  lemma SplitStep(name: string, k: nat, mods: Modifiers)
    requires k <= |name| && k < SepFrom(name, k) < |name|
    ensures SplitModifiers(name, k, mods) ==
            SplitModifiers(name, SepFrom(name, k) + 1, AddModifiers(mods, name[k..SepFrom(name, k)]))
  {
  }

  /** strcspn stops on the separator that ends a word with none inside. */
  lemma SepAfterWord(name: string, k: nat, w: string)
    requires k + |w| < |name| && name[k..k + |w|] == w && name[k + |w|] == '+'
    requires '-' !in w && '+' !in w
    ensures SepFrom(name, k) == k + |w|
  {
    forall i | k <= i < k + |w| ensures name[i] != '-' && name[i] != '+' {
      assert name[i] == w[i - k];
    }
    SepFromAt(name, k, k + |w|);
  }

  /** p occurs in name at offset k. */
  predicate Occurs(name: string, k: nat, p: string)
  {
    k + |p| <= |name| && name[k..k + |p|] == p
  }

  /** The segmenting loop stops at offset e: no separator follows, or one comes first. */
  predicate StopsAt(name: string, e: nat)
  {
    e <= |name| && (SepFrom(name, e) == e || SepFrom(name, e) == |name|)
  }

  lemma OccursSplit(name: string, k: nat, w: string, c: string)
    requires Occurs(name, k, w + "+" + c)
    ensures Occurs(name, k, w) && name[k + |w|] == '+' && Occurs(name, k + |w| + 1, c)
  {
    var p := w + "+" + c;
    assert name[k..k + |w|] == name[k..k + |p|][..|w|];
    assert name[k + |w|] == name[k..k + |p|][|w|];
    assert name[k + |w| + 1..k + |p|] == name[k..k + |p|][|w| + 1..];
  }

  /** Words each of which can be one segment of the loop: non-empty, with no separator inside. */
  predicate Segments(ws: seq<string>)
  {
    forall i | 0 <= i < |ws| :: |ws[i]| > 0 && '-' !in ws[i] && '+' !in ws[i]
  }

  /** The words, each followed by '+'. */
  function Joined(ws: seq<string>): string
    decreases |ws|
  {
    if |ws| == 0 then "" else ws[0] + "+" + Joined(ws[1..])
  }

  /** The modifiers the segmenting loop gathers from the words, one after the other. */
  function AddAll(m: Modifiers, ws: seq<string>): Modifiers
    decreases |ws|
  {
    if |ws| == 0 then m else AddAll(AddModifiers(m, ws[0]), ws[1..])
  }

  /** A word followed by '+' is one segment of the loop. */
  lemma SegmentStep(name: string, k: nat, mods: Modifiers, w: string)
    requires |w| > 0 && '-' !in w && '+' !in w
    requires Occurs(name, k, w) && k + |w| < |name| && name[k + |w|] == '+'
    ensures SplitModifiers(name, k, mods) == SplitModifiers(name, k + |w| + 1, AddModifiers(mods, w))
  {
    SepAfterWord(name, k, w);
    SplitStep(name, k, mods);
  }

  /**
   * Joined words at offset k are segments of the loop: it gathers their
   * modifiers and goes on after them, up to a rest on which it stops.
   */
  lemma {:induction false} SplitJoined(name: string, k: nat, ws: seq<string>, mods: Modifiers)
    requires Segments(ws) && Occurs(name, k, Joined(ws)) && StopsAt(name, k + |Joined(ws)|)
    ensures SplitModifiers(name, k, mods) == (AddAll(mods, ws), k + |Joined(ws)|)
    decreases |ws|
  {
    if |ws| == 0 {
      SplitStops(name, k, mods);
    } else {
      var w := ws[0];
      JoinedCons(mods, ws);
      OccursSplit(name, k, w, Joined(ws[1..]));
      SplitJoined(name, k + |w| + 1, ws[1..], AddModifiers(mods, w));
      SegmentStep(name, k, mods, w);
    }
  }

  /** The loop stops at once where no segment ends in a separator. */
  lemma SplitStops(name: string, k: nat, mods: Modifiers)
    requires StopsAt(name, k)
    ensures SplitModifiers(name, k, mods) == (mods, k)
  {
  }

  lemma JoinedCons(mods: Modifiers, ws: seq<string>)
    requires Segments(ws) && |ws| > 0
    ensures Segments(ws[1..]) && |ws[0]| > 0 && '-' !in ws[0] && '+' !in ws[0]
    ensures Joined(ws) == ws[0] + "+" + Joined(ws[1..])
    ensures AddAll(mods, ws) == AddAll(AddModifiers(mods, ws[0]), ws[1..])
  {
    forall i | 0 <= i < |ws[1..]| ensures |ws[1..][i]| > 0 && '-' !in ws[1..][i] && '+' !in ws[1..][i] {
      assert ws[1..][i] == ws[i + 1];
    }
  }

  /** The prefixes of some modifiers as vlc_keycode2str prints them untranslated. */
  function Plain(ks: seq<ModifierKey>): string
  {
    if |ks| == 0 then "" else Word(ks[0]) + "+" + Plain(ks[1..])
  }

  lemma {:induction false} PlainNoop(ks: seq<ModifierKey>)
    ensures Prefix(ks, NoopText) == Plain(ks)
    decreases |ks|
  {
    if |ks| > 0 {
      PlainNoop(ks[1..]);
    }
  }

  /** The words of some modifiers. */
  function Words(ks: seq<ModifierKey>): (ws: seq<string>)
    ensures |ws| == |ks|
    decreases |ks|
  {
    if |ks| == 0 then [] else [Word(ks[0])] + Words(ks[1..])
  }

  /** The untranslated prefixes are the modifiers' words joined, and those words raise exactly their flags. */
  lemma {:induction false} PlainWords(m: Modifiers, ks: seq<ModifierKey>)
    ensures Segments(Words(ks)) && Joined(Words(ks)) == Plain(ks)
    ensures AddAll(m, Words(ks)) == WithAll(m, ks)
    decreases |ks|
  {
    if |ks| > 0 {
      var ws := Words(ks);
      assert ws[0] == Word(ks[0]) && ws[1..] == Words(ks[1..]);
      PlainWords(With(m, ks[0]), ks[1..]);
      WordSets(m, ks[0]);
      forall i | 0 <= i < |ws| ensures |ws[i]| > 0 && '-' !in ws[i] && '+' !in ws[i] {
        if i > 0 {
          assert ws[i] == ws[1..][i - 1];
        }
      }
    }
  }

  /** Untranslated prefixes at offset k are segments of the loop. */
  lemma SplitPrefix(name: string, k: nat, ks: seq<ModifierKey>, mods: Modifiers)
    requires Occurs(name, k, Plain(ks)) && StopsAt(name, k + |Plain(ks)|)
    ensures SplitModifiers(name, k, mods) == (WithAll(mods, ks), k + |Plain(ks)|)
  {
    PlainWords(mods, ks);
    SplitJoined(name, k, Words(ks), mods);
  }

  lemma {:induction false} WithAllAppend(m: Modifiers, a: seq<ModifierKey>, b: seq<ModifierKey>)
    ensures WithAll(m, a + b) == WithAll(WithAll(m, a), b)
    decreases |a|
  {
    if |a| == 0 {
      assert a + b == b;
    } else {
      assert (a + b)[0] == a[0];
      assert (a + b)[1..] == a[1..] + b;
      WithAllAppend(With(m, a[0]), a[1..], b);
    }
  }

  /** The printed modifiers, gathered again, are exactly the modifiers printed. */
  lemma PrintedParse(m: Modifiers)
    ensures WithAll(NoModifiers, Printed(m)) == m
  {
    var c := if m.ctrl then [CtrlKey] else [];
    var a := if m.alt then [AltKey] else [];
    var sh := if m.shift then [ShiftKey] else [];
    var me := if m.meta then [MetaKey] else [];
    var co := if m.command then [CommandKey] else [];
    assert Printed(m) == c + a + sh + me + co;
    WithAllAppend(NoModifiers, c, a);
    WithAllAppend(NoModifiers, c + a, sh);
    WithAllAppend(NoModifiers, c + a + sh, me);
    WithAllAppend(NoModifiers, c + a + sh + me, co);
  }

  /** A key name the segmenting loop stops in front of: it has no separator, or starts with one. */
  predicate Stops(n: string)
  {
    ('-' !in n && '+' !in n) || (|n| > 0 && (n[0] == '-' || n[0] == '+'))
  }

  lemma StopsAfter(p: string, n: string)
    requires Stops(n)
    ensures StopsAt(p + n, |p|)
  {
    var s := p + n;
    var j := SepFrom(s, |p|);
    if j < |s| {
      assert s[j] == n[j - |p|];
      if '-' !in n && '+' !in n {
        assert false;
      }
      assert s[|p|] == n[0];
      SepFromAt(s, |p|, |p|);
    }
  }

  lemma {:induction false} PlainCString(ks: seq<ModifierKey>)
    ensures IsCString(Plain(ks))
    decreases |ks|
  {
    if |ks| > 0 {
      PlainCString(ks[1..]);
      var w := Word(ks[0]);
      assert IsCString(w + "+") by {
        match ks[0]
        case CtrlKey =>
        case AltKey =>
        case ShiftKey =>
        case MetaKey =>
        case CommandKey =>
      }
      CStringAppend(w + "+", Plain(ks[1..]));
    }
  }

  lemma CStringAppend(a: string, b: string)
    requires IsCString(a) && IsCString(b)
    ensures IsCString(a + b)
  {
    forall i | 0 <= i < |a + b| ensures 0 < (a + b)[i] as int < 256 {
      if i >= |a| {
        assert (a + b)[i] == b[i - |a|];
      }
    }
  }

  /**
   * The name vlc_keycode2str prints for a key reads back as that key:
   * bsearch finds a table name's entry, whose code is the key because the
   * names are distinct, and a UTF-8 name is no table name, so vlc_towc
   * decodes it.
   */
  lemma KeyNameParse(key: uint32)
    requires key != KeyUnset && (key in KeyCodes || key < 0x11_0000)
    ensures KeyName(key).Some?
    ensures IsCString(KeyName(key).value) && Stops(KeyName(key).value)
    ensures LookupKey(KeyName(key).value) == key
  {
    KeyTable();
    match IndexOf(KeyCodes, key)
    case Some(i) =>
      var n := KeyNames[i];
      assert n in KeyNames;
      assert PlainName(n);
      var i' := IndexOf(KeyNames, n).value;
      SortedDistinct(KeyNames, i, i');
    case None =>
      var e := Utf8.Encode(key).value;
      var n := Chars(e);
      Utf8.EncodeLength(key);
      Utf8.EncodeShape(key);
      assert IsCString(n);
      assert Bytes(n) == e;
      Utf8.DecodeEncode(key, []);
      assert e + [] == e;
      assert n !in KeyNames;
      assert Stops(n) by {
        if |e| > 1 {
          forall j | 0 <= j < |n| ensures n[j] != '-' && n[j] != '+' {
            assert j == 0 || Utf8.IsContinuation(e[j]);
          }
        }
      }
  }

  /** A name after untranslated prefixes is parsed with the prefixes' modifiers. */
  lemma ParsePrefixed(ks: seq<ModifierKey>, n: string)
    requires IsCString(n) && Stops(n) && LookupKey(n) != KeyUnset
    ensures IsCString(Plain(ks) + n)
    ensures ParseKey(Plain(ks) + n) == LookupKey(n) + ModBits(WithAll(NoModifiers, ks))
  {
    var p := Plain(ks);
    var s := p + n;
    PlainCString(ks);
    CStringAppend(p, n);
    PrefixedSplit(ks, n);
    ParseKeyAt(s, |p|, WithAll(NoModifiers, ks));
    assert s[|p|..] == n;
  }

  lemma PrefixedSplit(ks: seq<ModifierKey>, n: string)
    requires Stops(n)
    ensures SplitModifiers(Plain(ks) + n, 0, NoModifiers) == (WithAll(NoModifiers, ks), |Plain(ks)|)
  {
    var p := Plain(ks);
    StopsAfter(p, n);
    assert (p + n)[0..|p|] == p;
    SplitPrefix(p + n, 0, ks, NoModifiers);
  }

  /**
   * The round trip of the two functions: a code whose modifiers are among
   * the five and whose key has an entry or is a Unicode code point is
   * printed, untranslated, as a C string that vlc_str2keycode reads back
   * as the same code.
   */
  lemma Keycode2StrParse(code: uint32)
    requires code < 0x2000_0000
    requires KeyOf(code) != KeyUnset && (KeyOf(code) in KeyCodes || KeyOf(code) < 0x11_0000)
    ensures FormatKey(code, NoopText).Some?
    ensures IsCString(FormatKey(code, NoopText).value)
    ensures ParseKey(FormatKey(code, NoopText).value) == code
  {
    var m := ModifiersOf(code);
    KeyNameParse(KeyOf(code));
    var n := KeyName(KeyOf(code)).value;
    PlainNoop(Printed(m));
    assert FormatKey(code, NoopText) == Some(Plain(Printed(m)) + n);
    ParsePrefixed(Printed(m), n);
    PrintedParse(m);
    SplitCode(code);
  }

  /** "Space" is read as the blank character, not as the letter S. */
  lemma SpaceParses()
    ensures LookupKey("Space") == KeySpace
  {
    KeyTable();
    SpaceNamed();
    assert "Space" in KeyNames;
    var i := IndexOf(KeyNames, "Space").value;
    SortedDistinct(KeyNames, 58, i);
  }

  /** The blank character is printed as "Space". */
  lemma SpacePrinted()
    ensures KeyName(KeySpace) == Some("Space")
  {
    SpaceNamed();
    assert KeySpace in KeyCodes;
    var j := IndexOf(KeyCodes, KeySpace).value;
    assert j == 58;
  }

  /** No modifier is ever or-ed into KEY_UNSET, and no bit above Command is ever set. */
  lemma ParseKeyUnset(name: string)
    requires IsCString(name)
    ensures ParseKey(name) < 0x2000_0000
    ensures KeyOf(ParseKey(name)) == KeyUnset ==> ParseKey(name) == KeyUnset
  {
    var r := SplitModifiers(name, 0, NoModifiers);
    ParseKeyAt(name, r.1, r.0);
    var code := LookupKey(name[r.1..]);
    if code != KeyUnset {
      ModifiersOfSum(code, r.0);
    }
  }

  /**
   * With utf8_cp as written, vlc_keycode2str would print U+20000 as the
   * bytes E0 A0 80 80, which vlc_str2keycode reads back as U+0800.
   */
  lemma AsWrittenNameMisread()
    ensures Utf8.EncodeAsWritten(0x2_0000) == Some([0xE0, 0xA0, 0x80, 0x80])
    ensures IsCString(Chars([0xE0, 0xA0, 0x80, 0x80]))
    ensures ParseKey(Chars([0xE0, 0xA0, 0x80, 0x80])) == 0x800
  {
    var e: seq<Utf8.byte> := [0xE0, 0xA0, 0x80, 0x80];
    var n := Chars(e);
    Utf8.EncodeAsWrittenExample();
    assert SepFrom(n, 0) == |n| by {
      assert forall j | 0 <= j < |n| :: n[j] as int >= 0x80;
      SepFromAt(n, 0, |n|);
    }
    assert SplitModifiers(n, 0, NoModifiers) == (NoModifiers, 0);
    KeyTable();
    assert n !in KeyNames;
    assert Bytes(n) == e;
    ParseKeyAt(n, 0, NoModifiers);
    assert n[0..] == n;
  }
}
