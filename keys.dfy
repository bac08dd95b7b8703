/**
 * Key codes and the s_keys table of key names (src/misc/actions.c).
 *
 * A key code is a 32-bit value: the low 24 bits name the key (a Unicode
 * code point or one of the KEY_* values above the Unicode range) and the
 * top byte holds modifier bits (KEY_MODIFIER). The KEY_* values come from vlc_actions.h,
 * which is not part of this model; the proofs only use that the values
 * in the table carry no modifier bit.
 */
module Keys {
  import opened Wrappers
  import opened CStrings
  import opened Seqs
  import Utf8

  /** uint32_t: the C code's key codes are unsigned 32-bit values. */
  type uint32 = x: int | 0 <= x < 0x1_0000_0000

  /** KEY_MODIFIER covers the top byte: code % ModAlt is code & ~KEY_MODIFIER. */
  const ModAlt: uint32 := 0x0100_0000
  const ModShift: uint32 := 0x0200_0000
  const ModCtrl: uint32 := 0x0400_0000
  const ModMeta: uint32 := 0x0800_0000
  const ModCommand: uint32 := 0x1000_0000

  /** code & ~KEY_MODIFIER: the key without its modifier byte. */
  function KeyOf(code: uint32): (k: uint32)
    ensures k < ModAlt
  {
    code % ModAlt
  }

  /** (code & KEY_MODIFIER) >> 24: the modifier byte. */
  function ModByte(code: uint32): (b: nat)
    ensures b < 256
  {
    code / ModAlt
  }

  /**
   * A set of the modifier bits vlc_str2keycode ors together. Only these
   * five bits are ever set, so a record of five flags stands for the value.
   */
  datatype Modifiers = Modifiers(alt: bool, shift: bool, ctrl: bool, meta: bool, command: bool)

  const NoModifiers := Modifiers(false, false, false, false, false)

  /** The modifier byte of a set: Alt is its bit 0, then Shift, Ctrl, Meta and Command. */
  function FlagByte(m: Modifiers): (b: nat)
    ensures b < 32
  {
    (if m.alt then 1 else 0) + (if m.shift then 2 else 0) + (if m.ctrl then 4 else 0) +
    (if m.meta then 8 else 0) + (if m.command then 16 else 0)
  }

  /** The five modifier flags of a modifier byte; the bits above Command are not read. */
  function FlagsOf(b: nat): Modifiers
  {
    Modifiers(b % 2 == 1, (b / 2) % 2 == 1, (b / 4) % 2 == 1, (b / 8) % 2 == 1, (b / 16) % 2 == 1)
  }

  /** The modifier bits of a set as a 32-bit value, KEY_MODIFIER_ALT to KEY_MODIFIER_COMMAND. */
  function ModBits(m: Modifiers): (v: uint32)
  {
    ModAlt * FlagByte(m)
  }

  /** The modifiers a code carries: code & KEY_MODIFIER_ALT and the four others. */
  function ModifiersOf(code: uint32): Modifiers
  {
    FlagsOf(ModByte(code))
  }

  lemma FlagsOfFlagByte(m: Modifiers)
    ensures FlagsOf(FlagByte(m)) == m
  {
  }

  lemma FlagByteOfFlags(b: nat)
    requires b < 32
    ensures FlagByte(FlagsOf(b)) == b
  {
  }

  /**
   * A code with no bit above Command set is its key or-ed with its
   * modifiers; the two never share a bit, so the or is a sum.
   */
  lemma SplitCode(code: uint32)
    requires code < 0x2000_0000
    ensures code == KeyOf(code) + ModBits(ModifiersOf(code))
  {
    FlagByteOfFlags(ModByte(code));
  }

  /** The key and the modifiers of a key or-ed with a modifier set, read back. */
  lemma ModifiersOfSum(key: uint32, m: Modifiers)
    requires key < ModAlt
    ensures key + ModBits(m) < 0x2000_0000
    ensures KeyOf(key + ModBits(m)) == key
    ensures ModifiersOf(key + ModBits(m)) == m
  {
    var c := key + ModBits(m);
    assert c == FlagByte(m) * ModAlt + key;
    assert ModByte(c) == FlagByte(m);
    FlagsOfFlagByte(m);
  }

  const KeyBackspace: uint32 := 0x08
  const KeyBrightnessDown: uint32 := 0x63_0000
  const KeyBrightnessUp: uint32 := 0x62_0000
  const KeyBrowserBack: uint32 := 0x3F_0000
  const KeyBrowserFavorites: uint32 := 0x44_0000
  const KeyBrowserForward: uint32 := 0x40_0000
  const KeyBrowserHome: uint32 := 0x45_0000
  const KeyBrowserRefresh: uint32 := 0x41_0000
  const KeyBrowserSearch: uint32 := 0x43_0000
  const KeyBrowserStop: uint32 := 0x42_0000
  const KeyDelete: uint32 := 0x36_0000
  const KeyDown: uint32 := 0x24_0000
  const KeyEnd: uint32 := 0x34_0000
  const KeyEnter: uint32 := 0x0D
  const KeyEsc: uint32 := 0x1B
  const KeyF1: uint32 := 0x27_0000
  const KeyF10: uint32 := 0x30_0000
  const KeyF11: uint32 := 0x31_0000
  const KeyF12: uint32 := 0x32_0000
  const KeyF2: uint32 := 0x28_0000
  const KeyF3: uint32 := 0x29_0000
  const KeyF4: uint32 := 0x2A_0000
  const KeyF5: uint32 := 0x2B_0000
  const KeyF6: uint32 := 0x2C_0000
  const KeyF7: uint32 := 0x2D_0000
  const KeyF8: uint32 := 0x2E_0000
  const KeyF9: uint32 := 0x2F_0000
  const KeyHome: uint32 := 0x33_0000
  const KeyInsert: uint32 := 0x35_0000
  const KeyLeft: uint32 := 0x21_0000
  const KeyMediaAngle: uint32 := 0x54_0000
  const KeyMediaAudio: uint32 := 0x53_0000
  const KeyMediaForward: uint32 := 0x4F_0000
  const KeyMediaMenu: uint32 := 0x5A_0000
  const KeyMediaFrameNext: uint32 := 0x57_0000
  const KeyMediaNextTrack: uint32 := 0x49_0000
  const KeyMediaPlayPause: uint32 := 0x4C_0000
  const KeyMediaFramePrev: uint32 := 0x56_0000
  const KeyMediaPrevTrack: uint32 := 0x4A_0000
  const KeyMediaRecord: uint32 := 0x4D_0000
  const KeyMediaRepeat: uint32 := 0x50_0000
  const KeyMediaRewind: uint32 := 0x4E_0000
  const KeyMediaSelect: uint32 := 0x58_0000
  const KeyMediaShuffle: uint32 := 0x51_0000
  const KeyMediaStop: uint32 := 0x4B_0000
  const KeyMediaSubtitle: uint32 := 0x52_0000
  const KeyMediaTime: uint32 := 0x55_0000
  const KeyMediaView: uint32 := 0x59_0000
  const KeyMenu: uint32 := 0x37_0000
  const KeyMousewheeldown: uint32 := 0xF1_0000
  const KeyMousewheelleft: uint32 := 0xF2_0000
  const KeyMousewheelright: uint32 := 0xF3_0000
  const KeyMousewheelup: uint32 := 0xF0_0000
  const KeyPagedown: uint32 := 0x3A_0000
  const KeyPageup: uint32 := 0x39_0000
  const KeyPause: uint32 := 0x3D_0000
  const KeyPrint: uint32 := 0x3B_0000
  const KeyRight: uint32 := 0x22_0000
  const KeySpace: uint32 := 0x20
  const KeyTab: uint32 := 0x09
  const KeyUnset: uint32 := 0x00
  const KeyUp: uint32 := 0x23_0000
  const KeyVolumeDown: uint32 := 0x47_0000
  const KeyVolumeMute: uint32 := 0x46_0000
  const KeyVolumeUp: uint32 := 0x48_0000
  const KeyZoomIn: uint32 := 0x60_0000
  const KeyZoomOut: uint32 := 0x61_0000

  /**
   * s_keys, as two parallel sequences of names and codes. The table is
   * written in rows of six entries so that each row's facts are proved
   * on their own.
   */
  const KeyNames: seq<string> := KeyNames0 + KeyNames1 + KeyNames2 + KeyNames3 + KeyNames4 + KeyNames5 + KeyNames6 + KeyNames7 + KeyNames8 + KeyNames9 + KeyNames10 + KeyNames11
  const KeyCodes: seq<uint32> := KeyCodes0 + KeyCodes1 + KeyCodes2 + KeyCodes3 + KeyCodes4 + KeyCodes5 + KeyCodes6 + KeyCodes7 + KeyCodes8 + KeyCodes9 + KeyCodes10 + KeyCodes11

  const KeyNames0: seq<string> := ["Backspace", "Brightness Down", "Brightness Up", "Browser Back", "Browser Favorites", "Browser Forward"]
  const KeyNames1: seq<string> := ["Browser Home", "Browser Refresh", "Browser Search", "Browser Stop", "Delete", "Down"]
  const KeyNames2: seq<string> := ["End", "Enter", "Esc", "F1", "F10", "F11"]
  const KeyNames3: seq<string> := ["F12", "F2", "F3", "F4", "F5", "F6"]
  const KeyNames4: seq<string> := ["F7", "F8", "F9", "Home", "Insert", "Left"]
  const KeyNames5: seq<string> := ["Media Angle", "Media Audio Track", "Media Forward", "Media Menu", "Media Next Frame", "Media Next Track"]
  const KeyNames6: seq<string> := ["Media Play Pause", "Media Prev Frame", "Media Prev Track", "Media Record", "Media Repeat", "Media Rewind"]
  const KeyNames7: seq<string> := ["Media Select", "Media Shuffle", "Media Stop", "Media Subtitle", "Media Time", "Media View"]
  const KeyNames8: seq<string> := ["Menu", "Mouse Wheel Down", "Mouse Wheel Left", "Mouse Wheel Right", "Mouse Wheel Up", "Page Down"]
  const KeyNames9: seq<string> := ["Page Up", "Pause", "Print", "Right", "Space", "Tab"]
  const KeyNames10: seq<string> := ["Unset", "Up", "Volume Down", "Volume Mute", "Volume Up", "Zoom In"]
  const KeyNames11: seq<string> := ["Zoom Out"]

  const KeyCodes0: seq<uint32> := [KeyBackspace, KeyBrightnessDown, KeyBrightnessUp, KeyBrowserBack, KeyBrowserFavorites, KeyBrowserForward]
  const KeyCodes1: seq<uint32> := [KeyBrowserHome, KeyBrowserRefresh, KeyBrowserSearch, KeyBrowserStop, KeyDelete, KeyDown]
  const KeyCodes2: seq<uint32> := [KeyEnd, KeyEnter, KeyEsc, KeyF1, KeyF10, KeyF11]
  const KeyCodes3: seq<uint32> := [KeyF12, KeyF2, KeyF3, KeyF4, KeyF5, KeyF6]
  const KeyCodes4: seq<uint32> := [KeyF7, KeyF8, KeyF9, KeyHome, KeyInsert, KeyLeft]
  const KeyCodes5: seq<uint32> := [KeyMediaAngle, KeyMediaAudio, KeyMediaForward, KeyMediaMenu, KeyMediaFrameNext, KeyMediaNextTrack]
  const KeyCodes6: seq<uint32> := [KeyMediaPlayPause, KeyMediaFramePrev, KeyMediaPrevTrack, KeyMediaRecord, KeyMediaRepeat, KeyMediaRewind]
  const KeyCodes7: seq<uint32> := [KeyMediaSelect, KeyMediaShuffle, KeyMediaStop, KeyMediaSubtitle, KeyMediaTime, KeyMediaView]
  const KeyCodes8: seq<uint32> := [KeyMenu, KeyMousewheeldown, KeyMousewheelleft, KeyMousewheelright, KeyMousewheelup, KeyPagedown]
  const KeyCodes9: seq<uint32> := [KeyPageup, KeyPause, KeyPrint, KeyRight, KeySpace, KeyTab]
  const KeyCodes10: seq<uint32> := [KeyUnset, KeyUp, KeyVolumeDown, KeyVolumeMute, KeyVolumeUp, KeyZoomIn]
  const KeyCodes11: seq<uint32> := [KeyZoomOut]

  /** A table name: an upper-case first letter, printable ASCII, no '-' or '+', two bytes at least. */
  predicate PlainName(s: string)
  {
    |s| >= 2 && 'A' <= s[0] <= 'Z' &&
    forall i | 0 <= i < |s| :: ' ' <= s[i] <= '~' && s[i] != '-' && s[i] != '+'
  }

  /** KEY_UNSET has the entry "Unset", so vlc_keycode2str never reaches utf8_cp with it. */
  lemma KeyUnsetNamed()
    ensures KeyUnset in KeyCodes
  {
    assert KeyCodes10[0] == KeyUnset;
    assert KeyCodes[|KeyCodes0 + KeyCodes1 + KeyCodes2 + KeyCodes3 + KeyCodes4 + KeyCodes5 + KeyCodes6 + KeyCodes7 + KeyCodes8 + KeyCodes9|] == KeyUnset;
  }

  /** "Space" is entry 58, the first entry with the blank character's code. */
  lemma SpaceNamed()
    ensures 58 < |KeyNames| && 58 < |KeyCodes|
    ensures KeyNames[58] == "Space" && KeyCodes[58] == KeySpace
    ensures forall j | 0 <= j < 58 :: KeyCodes[j] != KeySpace
  {
    assert |KeyNames0 + KeyNames1 + KeyNames2 + KeyNames3 + KeyNames4 + KeyNames5 + KeyNames6 + KeyNames7 + KeyNames8| == 54;
    assert |KeyCodes0 + KeyCodes1 + KeyCodes2 + KeyCodes3 + KeyCodes4 + KeyCodes5 + KeyCodes6 + KeyCodes7 + KeyCodes8| == 54;
    assert KeyNames[58] == KeyNames9[4];
    assert KeyCodes[58] == KeyCodes9[4];
    SpaceNotBefore();
  }

  lemma SpaceNotBefore()
    ensures forall j | 0 <= j < 58 :: KeyCodes[j] != KeySpace
  {
    var p := KeyCodes0 + KeyCodes1 + KeyCodes2 + KeyCodes3 + KeyCodes4 + KeyCodes5 + KeyCodes6 + KeyCodes7 + KeyCodes8;
    assert KeySpace !in KeyCodes0;
    assert KeySpace !in KeyCodes1;
    assert KeySpace !in KeyCodes2;
    assert KeySpace !in KeyCodes3;
    assert KeySpace !in KeyCodes4;
    assert KeySpace !in KeyCodes5;
    assert KeySpace !in KeyCodes6;
    assert KeySpace !in KeyCodes7;
    assert KeySpace !in KeyCodes8;
    assert |p| == 54 && KeySpace !in p;
    forall j | 0 <= j < 58 ensures KeyCodes[j] != KeySpace {
      if j < 54 {
        assert KeyCodes[j] == p[j];
      } else {
        assert KeyCodes[j] == KeyCodes9[j - 54];
      }
    }
  }

  lemma KeyNames0Sorted()
    ensures StrictlySorted(KeyNames0)
  {
    forall i | 0 < i < |KeyNames0| ensures StrLess(KeyNames0[i - 1], KeyNames0[i]) {
      if i == 1 {
        assert LessAt(KeyNames0[0], KeyNames0[1], 1);
      } else if i == 2 {
        assert LessAt(KeyNames0[1], KeyNames0[2], 11);
      } else if i == 3 {
        assert LessAt(KeyNames0[2], KeyNames0[3], 2);
      } else if i == 4 {
        assert LessAt(KeyNames0[3], KeyNames0[4], 8);
      } else {
        assert LessAt(KeyNames0[4], KeyNames0[5], 9);
      }
    }
  }

  lemma KeyRow0Plain()
    ensures forall n | n in KeyNames0 :: PlainName(n)
    ensures forall c | c in KeyCodes0 :: c < ModAlt
  {
  }

  lemma KeyNames1Sorted()
    ensures StrictlySorted(KeyNames1)
  {
    forall i | 0 < i < |KeyNames1| ensures StrLess(KeyNames1[i - 1], KeyNames1[i]) {
      if i == 1 {
        assert LessAt(KeyNames1[0], KeyNames1[1], 8);
      } else if i == 2 {
        assert LessAt(KeyNames1[1], KeyNames1[2], 8);
      } else if i == 3 {
        assert LessAt(KeyNames1[2], KeyNames1[3], 9);
      } else if i == 4 {
        assert LessAt(KeyNames1[3], KeyNames1[4], 0);
      } else {
        assert LessAt(KeyNames1[4], KeyNames1[5], 1);
      }
    }
  }

  lemma KeyRow1Plain()
    ensures forall n | n in KeyNames1 :: PlainName(n)
    ensures forall c | c in KeyCodes1 :: c < ModAlt
  {
  }

  lemma KeyNames2Sorted()
    ensures StrictlySorted(KeyNames2)
  {
    forall i | 0 < i < |KeyNames2| ensures StrLess(KeyNames2[i - 1], KeyNames2[i]) {
      if i == 1 {
        assert LessAt(KeyNames2[0], KeyNames2[1], 2);
      } else if i == 2 {
        assert LessAt(KeyNames2[1], KeyNames2[2], 1);
      } else if i == 3 {
        assert LessAt(KeyNames2[2], KeyNames2[3], 0);
      } else if i == 4 {
        assert LessAt(KeyNames2[3], KeyNames2[4], 2);
      } else {
        assert LessAt(KeyNames2[4], KeyNames2[5], 2);
      }
    }
  }

  lemma KeyRow2Plain()
    ensures forall n | n in KeyNames2 :: PlainName(n)
    ensures forall c | c in KeyCodes2 :: c < ModAlt
  {
  }

  lemma KeyNames3Sorted()
    ensures StrictlySorted(KeyNames3)
  {
    forall i | 0 < i < |KeyNames3| ensures StrLess(KeyNames3[i - 1], KeyNames3[i]) {
      if i == 1 {
        assert LessAt(KeyNames3[0], KeyNames3[1], 1);
      } else if i == 2 {
        assert LessAt(KeyNames3[1], KeyNames3[2], 1);
      } else if i == 3 {
        assert LessAt(KeyNames3[2], KeyNames3[3], 1);
      } else if i == 4 {
        assert LessAt(KeyNames3[3], KeyNames3[4], 1);
      } else {
        assert LessAt(KeyNames3[4], KeyNames3[5], 1);
      }
    }
  }

  lemma KeyRow3Plain()
    ensures forall n | n in KeyNames3 :: PlainName(n)
    ensures forall c | c in KeyCodes3 :: c < ModAlt
  {
  }

  lemma KeyNames4Sorted()
    ensures StrictlySorted(KeyNames4)
  {
    forall i | 0 < i < |KeyNames4| ensures StrLess(KeyNames4[i - 1], KeyNames4[i]) {
      if i == 1 {
        assert LessAt(KeyNames4[0], KeyNames4[1], 1);
      } else if i == 2 {
        assert LessAt(KeyNames4[1], KeyNames4[2], 1);
      } else if i == 3 {
        assert LessAt(KeyNames4[2], KeyNames4[3], 0);
      } else if i == 4 {
        assert LessAt(KeyNames4[3], KeyNames4[4], 0);
      } else {
        assert LessAt(KeyNames4[4], KeyNames4[5], 0);
      }
    }
  }

  lemma KeyRow4Plain()
    ensures forall n | n in KeyNames4 :: PlainName(n)
    ensures forall c | c in KeyCodes4 :: c < ModAlt
  {
  }

  lemma KeyNames5Sorted()
    ensures StrictlySorted(KeyNames5)
  {
    forall i | 0 < i < |KeyNames5| ensures StrLess(KeyNames5[i - 1], KeyNames5[i]) {
      if i == 1 {
        assert LessAt(KeyNames5[0], KeyNames5[1], 7);
      } else if i == 2 {
        assert LessAt(KeyNames5[1], KeyNames5[2], 6);
      } else if i == 3 {
        assert LessAt(KeyNames5[2], KeyNames5[3], 6);
      } else if i == 4 {
        assert LessAt(KeyNames5[3], KeyNames5[4], 6);
      } else {
        assert LessAt(KeyNames5[4], KeyNames5[5], 11);
      }
    }
  }

  lemma KeyRow5Plain()
    ensures forall n | n in KeyNames5 :: PlainName(n)
    ensures forall c | c in KeyCodes5 :: c < ModAlt
  {
  }

  lemma KeyNames6Sorted()
    ensures StrictlySorted(KeyNames6)
  {
    forall i | 0 < i < |KeyNames6| ensures StrLess(KeyNames6[i - 1], KeyNames6[i]) {
      if i == 1 {
        assert LessAt(KeyNames6[0], KeyNames6[1], 7);
      } else if i == 2 {
        assert LessAt(KeyNames6[1], KeyNames6[2], 11);
      } else if i == 3 {
        assert LessAt(KeyNames6[2], KeyNames6[3], 6);
      } else if i == 4 {
        assert LessAt(KeyNames6[3], KeyNames6[4], 8);
      } else {
        assert LessAt(KeyNames6[4], KeyNames6[5], 8);
      }
    }
  }

  lemma KeyRow6Plain()
    ensures forall n | n in KeyNames6 :: PlainName(n)
    ensures forall c | c in KeyCodes6 :: c < ModAlt
  {
  }

  lemma KeyNames7Sorted()
    ensures StrictlySorted(KeyNames7)
  {
    forall i | 0 < i < |KeyNames7| ensures StrLess(KeyNames7[i - 1], KeyNames7[i]) {
      if i == 1 {
        assert LessAt(KeyNames7[0], KeyNames7[1], 7);
      } else if i == 2 {
        assert LessAt(KeyNames7[1], KeyNames7[2], 7);
      } else if i == 3 {
        assert LessAt(KeyNames7[2], KeyNames7[3], 7);
      } else if i == 4 {
        assert LessAt(KeyNames7[3], KeyNames7[4], 6);
      } else {
        assert LessAt(KeyNames7[4], KeyNames7[5], 6);
      }
    }
  }

  lemma KeyRow7Plain()
    ensures forall n | n in KeyNames7 :: PlainName(n)
    ensures forall c | c in KeyCodes7 :: c < ModAlt
  {
  }

  lemma KeyNames8Sorted()
    ensures StrictlySorted(KeyNames8)
  {
    forall i | 0 < i < |KeyNames8| ensures StrLess(KeyNames8[i - 1], KeyNames8[i]) {
      if i == 1 {
        assert LessAt(KeyNames8[0], KeyNames8[1], 1);
      } else if i == 2 {
        assert LessAt(KeyNames8[1], KeyNames8[2], 12);
      } else if i == 3 {
        assert LessAt(KeyNames8[2], KeyNames8[3], 12);
      } else if i == 4 {
        assert LessAt(KeyNames8[3], KeyNames8[4], 12);
      } else {
        assert LessAt(KeyNames8[4], KeyNames8[5], 0);
      }
    }
  }

  lemma KeyRow8Plain()
    ensures forall n | n in KeyNames8 :: PlainName(n)
    ensures forall c | c in KeyCodes8 :: c < ModAlt
  {
  }

  lemma KeyNames9Sorted()
    ensures StrictlySorted(KeyNames9)
  {
    forall i | 0 < i < |KeyNames9| ensures StrLess(KeyNames9[i - 1], KeyNames9[i]) {
      if i == 1 {
        assert LessAt(KeyNames9[0], KeyNames9[1], 2);
      } else if i == 2 {
        assert LessAt(KeyNames9[1], KeyNames9[2], 1);
      } else if i == 3 {
        assert LessAt(KeyNames9[2], KeyNames9[3], 0);
      } else if i == 4 {
        assert LessAt(KeyNames9[3], KeyNames9[4], 0);
      } else {
        assert LessAt(KeyNames9[4], KeyNames9[5], 0);
      }
    }
  }

  lemma KeyRow9Plain()
    ensures forall n | n in KeyNames9 :: PlainName(n)
    ensures forall c | c in KeyCodes9 :: c < ModAlt
  {
  }

  lemma KeyNames10Sorted()
    ensures StrictlySorted(KeyNames10)
  {
    forall i | 0 < i < |KeyNames10| ensures StrLess(KeyNames10[i - 1], KeyNames10[i]) {
      if i == 1 {
        assert LessAt(KeyNames10[0], KeyNames10[1], 1);
      } else if i == 2 {
        assert LessAt(KeyNames10[1], KeyNames10[2], 0);
      } else if i == 3 {
        assert LessAt(KeyNames10[2], KeyNames10[3], 7);
      } else if i == 4 {
        assert LessAt(KeyNames10[3], KeyNames10[4], 7);
      } else {
        assert LessAt(KeyNames10[4], KeyNames10[5], 0);
      }
    }
  }

  lemma KeyRow10Plain()
    ensures forall n | n in KeyNames10 :: PlainName(n)
    ensures forall c | c in KeyCodes10 :: c < ModAlt
  {
  }

  lemma KeyNames11Sorted()
    ensures StrictlySorted(KeyNames11)
  {
  }

  lemma KeyRow11Plain()
    ensures forall n | n in KeyNames11 :: PlainName(n)
    ensures forall c | c in KeyCodes11 :: c < ModAlt
  {
  }

  lemma KeyPrefix1()
    ensures StrictlySorted(KeyNames0 + KeyNames1)
    ensures forall n | n in KeyNames0 + KeyNames1 :: PlainName(n)
    ensures forall c | c in KeyCodes0 + KeyCodes1 :: c < ModAlt
  {
    KeyNames0Sorted();
    KeyRow0Plain();
    KeyNames1Sorted();
    KeyRow1Plain();
    assert LessAt(KeyNames0[5], KeyNames1[0], 8);
    SortedAppend(KeyNames0, KeyNames1);
  }

  lemma KeyPrefix2()
    ensures StrictlySorted(KeyNames0 + KeyNames1 + KeyNames2)
    ensures forall n | n in KeyNames0 + KeyNames1 + KeyNames2 :: PlainName(n)
    ensures forall c | c in KeyCodes0 + KeyCodes1 + KeyCodes2 :: c < ModAlt
  {
    KeyPrefix1();
    KeyNames2Sorted();
    KeyRow2Plain();
    assert LessAt(KeyNames1[5], KeyNames2[0], 0);
    SortedAppend(KeyNames0 + KeyNames1, KeyNames2);
  }

  lemma KeyPrefix3()
    ensures StrictlySorted(KeyNames0 + KeyNames1 + KeyNames2 + KeyNames3)
    ensures forall n | n in KeyNames0 + KeyNames1 + KeyNames2 + KeyNames3 :: PlainName(n)
    ensures forall c | c in KeyCodes0 + KeyCodes1 + KeyCodes2 + KeyCodes3 :: c < ModAlt
  {
    KeyPrefix2();
    KeyNames3Sorted();
    KeyRow3Plain();
    assert LessAt(KeyNames2[5], KeyNames3[0], 2);
    SortedAppend(KeyNames0 + KeyNames1 + KeyNames2, KeyNames3);
  }

  lemma KeyPrefix4()
    ensures StrictlySorted(KeyNames0 + KeyNames1 + KeyNames2 + KeyNames3 + KeyNames4)
    ensures forall n | n in KeyNames0 + KeyNames1 + KeyNames2 + KeyNames3 + KeyNames4 :: PlainName(n)
    ensures forall c | c in KeyCodes0 + KeyCodes1 + KeyCodes2 + KeyCodes3 + KeyCodes4 :: c < ModAlt
  {
    KeyPrefix3();
    KeyNames4Sorted();
    KeyRow4Plain();
    assert LessAt(KeyNames3[5], KeyNames4[0], 1);
    SortedAppend(KeyNames0 + KeyNames1 + KeyNames2 + KeyNames3, KeyNames4);
  }

  lemma KeyPrefix5()
    ensures StrictlySorted(KeyNames0 + KeyNames1 + KeyNames2 + KeyNames3 + KeyNames4 + KeyNames5)
    ensures forall n | n in KeyNames0 + KeyNames1 + KeyNames2 + KeyNames3 + KeyNames4 + KeyNames5 :: PlainName(n)
    ensures forall c | c in KeyCodes0 + KeyCodes1 + KeyCodes2 + KeyCodes3 + KeyCodes4 + KeyCodes5 :: c < ModAlt
  {
    KeyPrefix4();
    KeyNames5Sorted();
    KeyRow5Plain();
    assert LessAt(KeyNames4[5], KeyNames5[0], 0);
    SortedAppend(KeyNames0 + KeyNames1 + KeyNames2 + KeyNames3 + KeyNames4, KeyNames5);
  }

  lemma KeyPrefix6()
    ensures StrictlySorted(KeyNames0 + KeyNames1 + KeyNames2 + KeyNames3 + KeyNames4 + KeyNames5 + KeyNames6)
    ensures forall n | n in KeyNames0 + KeyNames1 + KeyNames2 + KeyNames3 + KeyNames4 + KeyNames5 + KeyNames6 :: PlainName(n)
    ensures forall c | c in KeyCodes0 + KeyCodes1 + KeyCodes2 + KeyCodes3 + KeyCodes4 + KeyCodes5 + KeyCodes6 :: c < ModAlt
  {
    KeyPrefix5();
    KeyNames6Sorted();
    KeyRow6Plain();
    assert LessAt(KeyNames5[5], KeyNames6[0], 6);
    SortedAppend(KeyNames0 + KeyNames1 + KeyNames2 + KeyNames3 + KeyNames4 + KeyNames5, KeyNames6);
  }

  lemma KeyPrefix7()
    ensures StrictlySorted(KeyNames0 + KeyNames1 + KeyNames2 + KeyNames3 + KeyNames4 + KeyNames5 + KeyNames6 + KeyNames7)
    ensures forall n | n in KeyNames0 + KeyNames1 + KeyNames2 + KeyNames3 + KeyNames4 + KeyNames5 + KeyNames6 + KeyNames7 :: PlainName(n)
    ensures forall c | c in KeyCodes0 + KeyCodes1 + KeyCodes2 + KeyCodes3 + KeyCodes4 + KeyCodes5 + KeyCodes6 + KeyCodes7 :: c < ModAlt
  {
    KeyPrefix6();
    KeyNames7Sorted();
    KeyRow7Plain();
    assert LessAt(KeyNames6[5], KeyNames7[0], 6);
    SortedAppend(KeyNames0 + KeyNames1 + KeyNames2 + KeyNames3 + KeyNames4 + KeyNames5 + KeyNames6, KeyNames7);
  }

  lemma KeyPrefix8()
    ensures StrictlySorted(KeyNames0 + KeyNames1 + KeyNames2 + KeyNames3 + KeyNames4 + KeyNames5 + KeyNames6 + KeyNames7 + KeyNames8)
    ensures forall n | n in KeyNames0 + KeyNames1 + KeyNames2 + KeyNames3 + KeyNames4 + KeyNames5 + KeyNames6 + KeyNames7 + KeyNames8 :: PlainName(n)
    ensures forall c | c in KeyCodes0 + KeyCodes1 + KeyCodes2 + KeyCodes3 + KeyCodes4 + KeyCodes5 + KeyCodes6 + KeyCodes7 + KeyCodes8 :: c < ModAlt
  {
    KeyPrefix7();
    KeyNames8Sorted();
    KeyRow8Plain();
    assert LessAt(KeyNames7[5], KeyNames8[0], 2);
    SortedAppend(KeyNames0 + KeyNames1 + KeyNames2 + KeyNames3 + KeyNames4 + KeyNames5 + KeyNames6 + KeyNames7, KeyNames8);
  }

  lemma KeyPrefix9()
    ensures StrictlySorted(KeyNames0 + KeyNames1 + KeyNames2 + KeyNames3 + KeyNames4 + KeyNames5 + KeyNames6 + KeyNames7 + KeyNames8 + KeyNames9)
    ensures forall n | n in KeyNames0 + KeyNames1 + KeyNames2 + KeyNames3 + KeyNames4 + KeyNames5 + KeyNames6 + KeyNames7 + KeyNames8 + KeyNames9 :: PlainName(n)
    ensures forall c | c in KeyCodes0 + KeyCodes1 + KeyCodes2 + KeyCodes3 + KeyCodes4 + KeyCodes5 + KeyCodes6 + KeyCodes7 + KeyCodes8 + KeyCodes9 :: c < ModAlt
  {
    KeyPrefix8();
    KeyNames9Sorted();
    KeyRow9Plain();
    assert LessAt(KeyNames8[5], KeyNames9[0], 5);
    SortedAppend(KeyNames0 + KeyNames1 + KeyNames2 + KeyNames3 + KeyNames4 + KeyNames5 + KeyNames6 + KeyNames7 + KeyNames8, KeyNames9);
  }

  lemma KeyPrefix10()
    ensures StrictlySorted(KeyNames0 + KeyNames1 + KeyNames2 + KeyNames3 + KeyNames4 + KeyNames5 + KeyNames6 + KeyNames7 + KeyNames8 + KeyNames9 + KeyNames10)
    ensures forall n | n in KeyNames0 + KeyNames1 + KeyNames2 + KeyNames3 + KeyNames4 + KeyNames5 + KeyNames6 + KeyNames7 + KeyNames8 + KeyNames9 + KeyNames10 :: PlainName(n)
    ensures forall c | c in KeyCodes0 + KeyCodes1 + KeyCodes2 + KeyCodes3 + KeyCodes4 + KeyCodes5 + KeyCodes6 + KeyCodes7 + KeyCodes8 + KeyCodes9 + KeyCodes10 :: c < ModAlt
  {
    KeyPrefix9();
    KeyNames10Sorted();
    KeyRow10Plain();
    assert LessAt(KeyNames9[5], KeyNames10[0], 0);
    SortedAppend(KeyNames0 + KeyNames1 + KeyNames2 + KeyNames3 + KeyNames4 + KeyNames5 + KeyNames6 + KeyNames7 + KeyNames8 + KeyNames9, KeyNames10);
  }

  lemma KeyPrefix11()
    ensures StrictlySorted(KeyNames0 + KeyNames1 + KeyNames2 + KeyNames3 + KeyNames4 + KeyNames5 + KeyNames6 + KeyNames7 + KeyNames8 + KeyNames9 + KeyNames10 + KeyNames11)
    ensures forall n | n in KeyNames0 + KeyNames1 + KeyNames2 + KeyNames3 + KeyNames4 + KeyNames5 + KeyNames6 + KeyNames7 + KeyNames8 + KeyNames9 + KeyNames10 + KeyNames11 :: PlainName(n)
    ensures forall c | c in KeyCodes0 + KeyCodes1 + KeyCodes2 + KeyCodes3 + KeyCodes4 + KeyCodes5 + KeyCodes6 + KeyCodes7 + KeyCodes8 + KeyCodes9 + KeyCodes10 + KeyCodes11 :: c < ModAlt
  {
    KeyPrefix10();
    KeyNames11Sorted();
    KeyRow11Plain();
    assert LessAt(KeyNames10[5], KeyNames11[0], 5);
    SortedAppend(KeyNames0 + KeyNames1 + KeyNames2 + KeyNames3 + KeyNames4 + KeyNames5 + KeyNames6 + KeyNames7 + KeyNames8 + KeyNames9 + KeyNames10, KeyNames11);
  }

  /**
   * s_keys is in strictly increasing strcmp order, as bsearch requires;
   * its names are plain and its codes carry no modifier bit.
   */
  lemma KeyTable()
    ensures |KeyNames| == |KeyCodes|
    ensures StrictlySorted(KeyNames)
    ensures forall n | n in KeyNames :: PlainName(n)
    ensures forall i | 0 <= i < |KeyCodes| :: KeyCodes[i] < ModAlt
  {
    KeyPrefix11();
    forall i | 0 <= i < |KeyCodes| ensures KeyCodes[i] < ModAlt {
      assert KeyCodes[i] in KeyCodes;
    }
  }
}
