/**
 * UTF-8 as used by the key-name codec of src/misc/actions.c: the encoder
 * utf8_cp as written, the encoder that section 3 of RFC 3629 calls for,
 * and a decoder of the first code point of a byte string standing in for
 * vlc_towc, whose source is not part of this model.
 *
 * Bytes and code points are integers. On non-negative values the C
 * operations used by utf8_cp are arithmetic: `cp >>= 6` is `cp / 64`,
 * `cp & 0x3F` is `cp % 64`, and or-ing a small value into 0x80, 0xC0,
 * 0xE0 or 0xF0 adds it, because the bits do not overlap.
 */
module Utf8 {
  import opened Wrappers

  type byte = b: int | 0 <= b < 256

  /** 10xxxxxx */
  predicate IsContinuation(b: byte) { 0x80 <= b < 0xC0 }

  /** The continuation byte 0x80 | (v & 0x3F). */
  function Cont(v: nat): byte { 0x80 + v % 64 }

  /** The bytes utf8_cp writes before the NUL, as written: the 4-byte form starts with 0xE0. */
  function EncodeAsWritten(cp: nat): Option<seq<byte>>
  {
    if cp < 0x80 then Some([cp])
    else if cp < 0x800 then Some([0xC0 + cp / 64, Cont(cp)])
    else if cp < 0x1_0000 then Some([0xE0 + cp / 64 / 64, Cont(cp / 64), Cont(cp)])
    else if cp < 0x20_0000 then
      Some([0xE0 + cp / 64 / 64 / 64, Cont(cp / 64 / 64), Cont(cp / 64), Cont(cp)])
    else None
  }

  /** The same encoder with the 4-byte lead byte 0xF0 that RFC 3629 section 3 prescribes. */
  function Encode(cp: nat): Option<seq<byte>>
  {
    if cp < 0x1_0000 || cp >= 0x20_0000 then EncodeAsWritten(cp)
    else Some([0xF0 + cp / 64 / 64 / 64, Cont(cp / 64 / 64), Cont(cp / 64), Cont(cp)])
  }

  /**
   * utf8_cp as written: fills buf with the encoding of cp and a NUL and
   * reports success, or fails for cp >= 2^21 leaving buf untouched.
   */
  method Utf8CpAsWritten(cp: nat, buf: array<byte>) returns (ok: bool)
    requires buf.Length >= 5
    modifies buf
    ensures ok <==> EncodeAsWritten(cp).Some?
    ensures ok ==> buf[..|EncodeAsWritten(cp).value| + 1] == EncodeAsWritten(cp).value + [0]
    ensures ok ==> buf[|EncodeAsWritten(cp).value| + 1..] == old(buf[|EncodeAsWritten(cp).value| + 1..])
    ensures !ok ==> buf[..] == old(buf[..])
  {
    var c: nat := cp;
    if c < 0x80 {
      buf[1] := 0;
      buf[0] := c;
    } else if c < 0x800 {
      buf[2] := 0;
      buf[1] := Cont(c);
      c := c / 64;
      buf[0] := 0xC0 + c;
    } else if c < 0x1_0000 {
      buf[3] := 0;
      buf[2] := Cont(c);
      c := c / 64;
      buf[1] := Cont(c);
      c := c / 64;
      buf[0] := 0xE0 + c;
    } else if c < 0x20_0000 {
      buf[4] := 0;
      buf[3] := Cont(c);
      c := c / 64;
      buf[2] := Cont(c);
      c := c / 64;
      buf[1] := Cont(c);
      c := c / 64;
      buf[0] := 0xE0 + c;
    } else {
      return false;
    }
    return true;
  }

  /** utf8_cp with the 4-byte lead byte corrected to 0xF0. */
  method Utf8Cp(cp: nat, buf: array<byte>) returns (ok: bool)
    requires buf.Length >= 5
    modifies buf
    ensures ok <==> Encode(cp).Some?
    ensures ok ==> buf[..|Encode(cp).value| + 1] == Encode(cp).value + [0]
    ensures ok ==> buf[|Encode(cp).value| + 1..] == old(buf[|Encode(cp).value| + 1..])
    ensures !ok ==> buf[..] == old(buf[..])
  {
    if 0x1_0000 <= cp < 0x20_0000 {
      var c: nat := cp;
      buf[4] := 0;
      buf[3] := Cont(c);
      c := c / 64;
      buf[2] := Cont(c);
      c := c / 64;
      buf[1] := Cont(c);
      c := c / 64;
      buf[0] := 0xF0 + c;
      return true;
    }
    ok := Utf8CpAsWritten(cp, buf);
  }

  /** Both encoders fail exactly from 2^21 on, and otherwise use 1, 2, 3 or 4 bytes. */
  lemma EncodeLength(cp: nat)
    ensures EncodeAsWritten(cp).None? <==> cp >= 0x20_0000
    ensures Encode(cp).None? <==> cp >= 0x20_0000
    ensures Encode(cp).Some? ==>
      |Encode(cp).value| == |EncodeAsWritten(cp).value| ==
      (if cp < 0x80 then 1 else if cp < 0x800 then 2 else if cp < 0x1_0000 then 3 else 4)
  {
  }

  /**
   * Shape of the corrected output: the lead byte is 0xxxxxxx, 110xxxxx,
   * 1110xxxx or 11110xxx by length, every later byte is a continuation
   * byte, and no byte is NUL unless cp is.
   */
  lemma EncodeShape(cp: nat)
    requires Encode(cp).Some?
    ensures var e := Encode(cp).value;
      (|e| == 1 ==> e[0] < 0x80) &&
      (|e| == 2 ==> 0xC0 <= e[0] < 0xE0) &&
      (|e| == 3 ==> 0xE0 <= e[0] < 0xF0) &&
      (|e| == 4 ==> 0xF0 <= e[0] < 0xF8) &&
      (forall i | 1 <= i < |e| :: IsContinuation(e[i])) &&
      (cp != 0 ==> forall i | 0 <= i < |e| :: e[i] != 0)
  {
  }

  /** As written, every 4-byte encoding starts with a lead byte of the 3-byte form 1110xxxx. */
  lemma EncodeAsWrittenLead(cp: nat)
    requires 0x1_0000 <= cp < 0x20_0000
    ensures 0xE0 <= EncodeAsWritten(cp).value[0] < 0xF0
    ensures EncodeAsWritten(cp).value != Encode(cp).value
  {
  }

  /** What the decoder makes of the start of a byte string. */
  datatype Decoded = Nul | Invalid | CodePoint(cp: nat, len: nat)

  /**
   * The first code point of s: NUL or the end of the string gives Nul;
   * only the shortest form of each code point up to U+10FFFF is accepted.
   */
  function DecodeFirst(s: seq<byte>): (d: Decoded)
    ensures d.CodePoint? ==> 1 <= d.len <= 4 && d.len <= |s| && 0 < d.cp < 0x11_0000
    ensures d.CodePoint? ==> forall i | 1 <= i < d.len :: IsContinuation(s[i])
  {
    if |s| == 0 || s[0] == 0 then Nul
    else if s[0] < 0x80 then CodePoint(s[0], 1)
    else if 0xC0 <= s[0] < 0xE0 then
      if |s| < 2 || !IsContinuation(s[1]) then Invalid
      else
        var cp := (s[0] as int - 0xC0) * 64 + (s[1] as int - 0x80);
        if cp < 0x80 then Invalid else CodePoint(cp, 2)
    else if 0xE0 <= s[0] < 0xF0 then
      if |s| < 3 || !IsContinuation(s[1]) || !IsContinuation(s[2]) then Invalid
      else
        var cp := (s[0] as int - 0xE0) * 0x1000 + (s[1] as int - 0x80) * 64 + (s[2] as int - 0x80);
        if cp < 0x800 then Invalid else CodePoint(cp, 3)
    else if 0xF0 <= s[0] < 0xF8 then
      if |s| < 4 || !IsContinuation(s[1]) || !IsContinuation(s[2]) || !IsContinuation(s[3]) then Invalid
      else
        var cp := (s[0] as int - 0xF0) * 0x4_0000 + (s[1] as int - 0x80) * 0x1000 + (s[2] as int - 0x80) * 64 + (s[3] as int - 0x80);
        if cp < 0x1_0000 || cp > 0x10_FFFF then Invalid else CodePoint(cp, 4)
    else Invalid
  }

  /** Decoding the corrected encoding gives the code point back, whatever follows it. */
  lemma DecodeEncode(cp: nat, rest: seq<byte>)
    requires 0 < cp < 0x11_0000
    ensures Encode(cp).Some?
    ensures DecodeFirst(Encode(cp).value + rest) == CodePoint(cp, |Encode(cp).value|)
  {
    var e := Encode(cp).value;
    var s := e + rest;
    if cp < 0x80 {
      assert s[0] == e[0];
    } else if cp < 0x800 {
      assert s[0] == e[0] && s[1] == e[1];
    } else if cp < 0x1_0000 {
      DecodeThree(cp, s);
    } else {
      DecodeFour(cp, s);
    }
  }

  lemma DecodeThree(cp: nat, s: seq<byte>)
    requires 0x800 <= cp < 0x1_0000
    requires |s| >= 3 && s[..3] == Encode(cp).value
    ensures DecodeFirst(s) == CodePoint(cp, 3)
  {
    assert s[0] == s[..3][0] && s[1] == s[..3][1] && s[2] == s[..3][2];
    var c1 := cp / 64;
    assert cp == c1 * 64 + cp % 64;
    assert c1 == (c1 / 64) * 64 + c1 % 64;
  }

  lemma DecodeFour(cp: nat, s: seq<byte>)
    requires 0x1_0000 <= cp < 0x11_0000
    requires |s| >= 4 && s[..4] == Encode(cp).value
    ensures DecodeFirst(s) == CodePoint(cp, 4)
  {
    assert s[0] == s[..4][0] && s[1] == s[..4][1] && s[2] == s[..4][2] && s[3] == s[..4][3];
    var c1 := cp / 64;
    var c2 := c1 / 64;
    assert cp == c1 * 64 + cp % 64;
    assert c1 == c2 * 64 + c1 % 64;
    assert c2 == (c2 / 64) * 64 + c2 % 64;
  }

  /**
   * As written, the encoding of a code point from U+10000 on never decodes
   * back to it: its lead byte announces three bytes, which carry a code
   * point below U+10000 or an overlong form.
   */
  lemma DecodeEncodeAsWrittenFails(cp: nat, rest: seq<byte>)
    requires 0x1_0000 <= cp < 0x20_0000
    ensures DecodeFirst(EncodeAsWritten(cp).value + rest).CodePoint? ==>
              DecodeFirst(EncodeAsWritten(cp).value + rest).cp < 0x1_0000
  {
    var e := EncodeAsWritten(cp).value;
    var s := e + rest;
    assert s[0] == e[0] && s[1] == e[1] && s[2] == e[2];
  }

  /** U+20000 is written as E0 A0 80 80, which reads back as U+0800; with 0xF0 it reads back. */
  lemma EncodeAsWrittenExample()
    ensures EncodeAsWritten(0x2_0000) == Some([0xE0, 0xA0, 0x80, 0x80])
    ensures DecodeFirst([0xE0, 0xA0, 0x80, 0x80]) == CodePoint(0x800, 3)
    ensures Encode(0x2_0000) == Some([0xF0, 0xA0, 0x80, 0x80])
    ensures DecodeFirst([0xF0, 0xA0, 0x80, 0x80]) == CodePoint(0x2_0000, 4)
  {
  }
}
