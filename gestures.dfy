/**
 * The mouse-gesture recogniser of modules/control/gestures.c: while the
 * trigger button is held, each mouse move that covers at least one
 * threshold in some direction records that direction as a 4-bit nibble
 * of the pattern; releasing the button dispatches the pattern to the
 * hotkey actions and resets it.
 */
module Gestures {
  import opened ActionTable
  import Wrappers

  /** The direction codes. */
  const None: int := 0
  const Up: int := 1
  const Down: int := 2
  const Left: int := 3
  const Right: int := 4

  type Nibble = x: int | 0 <= x < 16

  function Pow16(n: nat): (r: nat)
    ensures r >= 1
  {
    if n == 0 then 1 else 16 * Pow16(n - 1)
  }

  /**
   * gesture(p, k): nibble k of the pattern, that is (p >> 4k) & 0xF,
   * written as one division by 16 per nibble skipped.
   */
  function Gesture(p: nat, k: nat): (r: Nibble)
  {
    if k == 0 then p % 16 else Gesture(p / 16, k - 1)
  }

  /**
   * The GESTURE(a, b, c, d) macro: a | b << 4 | c << 8 | d << 12. The
   * four nibbles occupy disjoint bits, so the OR is their sum.
   */
  function Gesture4(a: Nibble, b: Nibble, c: Nibble, d: Nibble): (p: nat)
    ensures p < 0x1_0000
  {
    a + 16 * b + 256 * c + 4096 * d
  }

  /** gesture(GESTURE(a, b, c, d), k) gives back the k-th argument. */
  lemma GestureUnpack(a: Nibble, b: Nibble, c: Nibble, d: Nibble, k: nat)
    ensures Gesture(Gesture4(a, b, c, d), k)
         == if k == 0 then a else if k == 1 then b else if k == 2 then c
            else if k == 3 then d else 0
  {
    var p := Gesture4(a, b, c, d);
    assert p % 16 == a && p / 16 == b + 16 * c + 256 * d;
    var p1 := p / 16;
    assert p1 % 16 == b && p1 / 16 == c + 16 * d;
    var p2 := p1 / 16;
    assert p2 % 16 == c && p2 / 16 == d;
    assert (p2 / 16) / 16 == 0;
    if k == 1 {
      assert Gesture(p, 1) == Gesture(p1, 0);
    } else if k == 2 {
      assert Gesture(p, 2) == Gesture(p1, 1) == Gesture(p2, 0);
    } else if k == 3 {
      assert Gesture(p, 3) == Gesture(p1, 2) == Gesture(p2, 1) == Gesture(p2 / 16, 0);
    } else if k >= 4 {
      assert Gesture(p, k) == Gesture(p1, k - 1) == Gesture(p2, k - 2)
          == Gesture(p2 / 16, k - 3) == Gesture(0, k - 4);
      GestureOfZero(k - 4);
    }
  }

  lemma {:induction false} GestureOfZero(k: nat)
    ensures Gesture(0, k) == 0
  {
    if k > 0 {
      GestureOfZero(k - 1);
    }
  }

  /** A pattern below 16^k has no nibble set from position k up. */
  lemma {:induction false} GestureAbove(p: nat, k: nat)
    requires p < Pow16(k)
    ensures Gesture(p, k) == 0
  {
    if k == 0 {
    } else if p < 16 {
      assert p / 16 == 0;
      GestureOfZero(k - 1);
    } else {
      GestureAbove(p / 16, k - 1);
    }
  }

  /**
   * Adding d << 4n to a pattern of n nibbles sets nibble n to d and keeps
   * the nibbles below it.
   */
  lemma {:induction false} GestureAppend(p: nat, n: nat, d: Nibble, k: nat)
    requires p < Pow16(n)
    ensures p + d * Pow16(n) < Pow16(n + 1)
    ensures Gesture(p + d * Pow16(n), k)
         == if k < n then Gesture(p, k) else if k == n then d else 0
  {
    var q := p + d * Pow16(n);
    if n == 0 {
      assert q == d;
      if k > 0 {
        assert q / 16 == 0;
        GestureOfZero(k - 1);
      }
    } else {
      var m := Pow16(n - 1);
      assert q == p % 16 + 16 * (p / 16 + d * m);
      assert q % 16 == p % 16 && q / 16 == p / 16 + d * m;
      GestureAppend(p / 16, n - 1, d, if k == 0 then 0 else k - 1);
    }
  }

  /**
   * The recogniser's invariant on (i_pattern, i_num_gestures): exactly n
   * nibbles, each one of the four directions, no two neighbours equal.
   */
  ghost predicate WellFormed(p: nat, n: nat)
  {
    p < Pow16(n) && StrokesOk(Strokes(p, n))
  }

  /** Every stroke is one of the four directions and differs from the one before. */
  ghost predicate StrokesOk(s: seq<int>)
  {
    && (forall k | 0 <= k < |s| :: Up <= s[k] <= Right)
    && (forall i, j | 0 <= i && j == i + 1 && j < |s| :: s[i] != s[j])
  }

  lemma StrokesOkAppend(s: seq<int>, d: int)
    requires StrokesOk(s) && Up <= d <= Right
    requires s == [] || s[|s| - 1] != d
    ensures StrokesOk(s + [d])
  {
  }

  /** The directions recorded in a pattern of n nibbles, first stroke first. */
  function Strokes(p: nat, n: nat): (s: seq<int>)
    ensures |s| == n
  {
    seq(n, k requires 0 <= k => Gesture(p, k))
  }

  /** I/O-free model of C's `/` on int: the quotient truncated toward zero. */
  function TruncDiv(a: int, b: int): (q: int)
    requires b != 0
    ensures q == 0 <==> Abs(a) < Abs(b)
    ensures q < 0 <==> Abs(a) >= Abs(b) && ((a < 0) != (b < 0))
  {
    var u := Abs(a) / Abs(b);
    DivBounds(Abs(a), Abs(b));
    if (a < 0) == (b < 0) then u else -u
  }

  /** The truncated quotient is the largest multiple of b not exceeding a in magnitude. */
  lemma TruncDivBounds(a: int, b: int)
    requires b != 0
    ensures Abs(TruncDiv(a, b)) * Abs(b) <= Abs(a) < (Abs(TruncDiv(a, b)) + 1) * Abs(b)
    ensures TruncDiv(-a, b) == -TruncDiv(a, b) == TruncDiv(a, -b)
  {
    DivBounds(Abs(a), Abs(b));
  }

  function Abs(x: int): nat
  {
    if x < 0 then -x else x
  }

  lemma DivBounds(a: nat, b: nat)
    requires b > 0
    ensures (a / b) * b <= a < (a / b + 1) * b
    ensures a / b == 0 <==> a < b
  {
    var q, r := a / b, a % b;
    assert a == q * b + r;
    if q > 0 {
      assert q * b >= b;
    }
  }

  /**
   * The direction a move reports, from the truncated horizontal and
   * vertical quotients: a vertical step overrides a horizontal one.
   */
  function Direction(h: int, v: int): (d: int)
    ensures d == None <==> h == 0 && v == 0
    ensures v < 0 ==> d == Up
    ensures v > 0 ==> d == Down
    ensures v == 0 ==> d == (if h < 0 then Left else if h > 0 then Right else None)
  {
    var d := if h < 0 then Left else if h > 0 then Right else None;
    if v < 0 then Up else if v > 0 then Down else d
  }

  /**
   * The actions ProcessGesture triggers for a pattern, in order, reading
   * its switch as written: the cases of RIGHT and of DOWN-RIGHT and UP-LEFT
   * have no break and run on into the cases below them.
   */
  function Dispatch(p: nat): (actions: seq<ActionId>)
    ensures actions != [] ==> 0 < p < 256
    ensures |actions| <= 3
  {
    if p == Left then [JumpForwardShort]
    else if p == Right then [JumpForwardShort, Slower]
    else if p == Gesture4(Left, Up, None, None) then [Slower]
    else if p == Gesture4(Right, Up, None, None) then [Faster]
    else if p == Gesture4(Left, Right, None, None) then [PlayPause]
    else if p == Gesture4(Right, Left, None, None) then [PlayPause]
    else if p == Gesture4(Left, Down, None, None) then [Prev]
    else if p == Gesture4(Right, Down, None, None) then [Next]
    else if p == Up then [VolUp]
    else if p == Down then [VolDown]
    else if p == Gesture4(Up, Down, None, None) then [VolMute]
    else if p == Gesture4(Down, Up, None, None) then [VolMute]
    else if p == Gesture4(Up, Right, None, None) then [AudioTrack]
    else if p == Gesture4(Down, Right, None, None) then [SubtitleTrack, ToggleFullscreen, Quit]
    else if p == Gesture4(Up, Left, None, None) then [ToggleFullscreen, Quit]
    else if p == Gesture4(Down, Left, None, None) then [Quit]
    else []
  }

  /**
   * Exactly the one- and two-stroke gestures trigger something: every
   * single stroke and every pair of different strokes has an arm, and a
   * well-formed pattern of three or more strokes, or of none, matches none.
   */
  lemma DispatchIffShortGesture(p: nat, n: nat)
    requires WellFormed(p, n)
    ensures Dispatch(p) != [] <==> 1 <= n <= 2
  {
    var s := Strokes(p, n);
    if n == 0 {
      assert p == 0;
    } else if n == 1 {
      assert p < 16 && p == Gesture(p, 0) == s[0];
    } else if n == 2 {
      assert p < 256;
      assert p == p % 16 + 16 * (p / 16);
      assert Gesture(p, 1) == (p / 16) % 16 == p / 16;
      assert p == s[0] + 16 * s[1] && s[0] != s[1];
    } else {
      assert Up <= s[2] == Gesture(p, 2);
      if p < Pow16(2) {
        GestureAbove(p, 2);
      }
    }
  }

  /** The three arms that run on: RIGHT, DOWN-RIGHT and UP-LEFT. */
  lemma DispatchFallsThrough()
    ensures Dispatch(Right) == [JumpForwardShort, Slower]
    ensures Dispatch(Gesture4(Down, Right, None, None)) == [SubtitleTrack, ToggleFullscreen, Quit]
    ensures Dispatch(Gesture4(Up, Left, None, None)) == [ToggleFullscreen, Quit]
    ensures Dispatch(Gesture4(Down, Left, Up, Right)) == []
  {
  }

  /** The button mask Open derives from the "gestures-button" setting. */
  function ButtonMask(button: Wrappers.Option<string>): (mask: int)
    ensures mask == 1 <==> button == Wrappers.Some("left")
    ensures mask == 2 <==> button == Wrappers.Some("middle")
    ensures mask == 1 || mask == 2 || mask == 4
  {
    if button == Wrappers.Some("left") then 1
    else if button == Wrappers.Some("middle") then 2
    else 4
  }

  /**
   * val.i_int & mask for a one-bit mask: bit log2(mask) of the button
   * state. Dafny's division rounds down, so this is also the bit of a
   * negative state in two's complement.
   */
  predicate HasButton(buttons: int, mask: int)
    requires mask == 1 || mask == 2 || mask == 4
  {
    (buttons / mask) % 2 == 1
  }

  /** The recogniser's state, the intf_sys_t fields the handlers update. */
  class Recogniser {
    var buttonPressed: bool
    var lastX: int
    var lastY: int
    var pattern: nat
    var numGestures: nat
    var threshold: int
    var buttonMask: int

    ghost predicate Valid()
      reads this
    {
      && (buttonMask == 1 || buttonMask == 2 || buttonMask == 4)
      && WellFormed(pattern, numGestures)
    }

    /**
     * Open: the mask from the button setting, the threshold from the
     * "gestures-threshold" setting, no stroke and the button up. The last
     * coordinates are left unset, as in the source.
     */
    constructor Open(button: Wrappers.Option<string>, thresholdSetting: int)
      ensures Valid()
      ensures buttonMask == ButtonMask(button) && threshold == thresholdSetting
      ensures !buttonPressed && pattern == 0 && numGestures == 0
    {
      buttonPressed := false;
      threshold := thresholdSetting;
      buttonMask := ButtonMask(button);
      pattern := 0;
      numGestures := 0;
    }

    /**
     * MovedEvent: a move to (x, y) with the button held reports the
     * direction of the truncated displacement; a recognised direction
     * moves the anchor to (x, y) and is appended unless it repeats the last
     * stroke.
     */
    method Moved(x: int, y: int)
      requires Valid()
      requires buttonPressed ==> threshold != 0
      modifies this
      ensures Valid()
      ensures buttonPressed == old(buttonPressed) && threshold == old(threshold)
      ensures buttonMask == old(buttonMask)
      ensures !old(buttonPressed) ==> unchanged(this)
      ensures old(buttonPressed) ==>
        var d := Direction(TruncDiv(x - old(lastX), threshold), TruncDiv(y - old(lastY), threshold));
        if d == None then unchanged(this)
        else
          && lastX == x && lastY == y
          && if old(numGestures) == 0 || Gesture(old(pattern), old(numGestures) - 1) != d
             then Strokes(pattern, numGestures) == Strokes(old(pattern), old(numGestures)) + [d]
             else pattern == old(pattern) && numGestures == old(numGestures)
    {
      if buttonPressed {
        var horizontal := TruncDiv(x - lastX, threshold);
        var vertical := TruncDiv(y - lastY, threshold);
        var d := Direction(horizontal, vertical);
        if d != None {
          lastX := x;
          lastY := y;
          if numGestures > 0 && Gesture(pattern, numGestures - 1) != d {
            AppendStroke(pattern, numGestures, d);
            // d << 4n lies above every bit of the pattern, so the OR is a sum
            pattern := pattern + d * Pow16(numGestures);
            numGestures := numGestures + 1;
          } else if numGestures == 0 {
            AppendStroke(0, 0, d);
            pattern := d;
            numGestures := 1;
            assert d == 0 + d * Pow16(0);
          }
        }
      }
    }

    /**
     * ButtonEvent: pressing the trigger button starts a gesture anchored at
     * the current mouse position; releasing it ends the gesture and
     * returns the actions it dispatched. Other transitions do nothing.
     */
    method Button(buttons: int, mouseX: int, mouseY: int) returns (actions: seq<ActionId>)
      requires Valid()
      modifies this
      ensures Valid()
      ensures threshold == old(threshold) && buttonMask == old(buttonMask)
      ensures HasButton(buttons, buttonMask) && !old(buttonPressed) ==>
        buttonPressed && lastX == mouseX && lastY == mouseY
        && pattern == old(pattern) && numGestures == old(numGestures) && actions == []
      ensures !HasButton(buttons, buttonMask) && old(buttonPressed) ==>
        !buttonPressed && lastX == old(lastX) && lastY == old(lastY)
        && pattern == 0 && numGestures == 0 && actions == Dispatch(old(pattern))
      ensures HasButton(buttons, buttonMask) == old(buttonPressed) ==>
        unchanged(this) && actions == []
    {
      actions := [];
      if HasButton(buttons, buttonMask) {
        if !buttonPressed {
          buttonPressed := true;
          lastX, lastY := mouseX, mouseY;
        }
      } else {
        if buttonPressed {
          buttonPressed := false;
          actions := ProcessGesture();
        }
      }
    }

    /** ProcessGesture: dispatch the pattern, then forget it. */
    method ProcessGesture() returns (actions: seq<ActionId>)
      requires Valid()
      modifies this
      ensures Valid()
      ensures actions == Dispatch(old(pattern))
      ensures pattern == 0 && numGestures == 0
      ensures buttonPressed == old(buttonPressed) && lastX == old(lastX) && lastY == old(lastY)
      ensures threshold == old(threshold) && buttonMask == old(buttonMask)
    {
      actions := Dispatch(pattern);
      numGestures := 0;
      pattern := 0;
    }
  }

  /**
   * Appending a direction that differs from the last stroke keeps the
   * invariant and adds exactly that stroke.
   */
  lemma AppendStroke(p: nat, n: nat, d: int)
    requires WellFormed(p, n) && Up <= d <= Right
    requires n == 0 || Gesture(p, n - 1) != d
    ensures WellFormed(p + d * Pow16(n), n + 1)
    ensures Strokes(p + d * Pow16(n), n + 1) == Strokes(p, n) + [d]
  {
    var q := p + d * Pow16(n);
    GestureAppend(p, n, d, 0);
    forall k | 0 <= k <= n
      ensures Gesture(q, k) == if k < n then Gesture(p, k) else d
    {
      GestureAppend(p, n, d, k);
    }
    assert Strokes(q, n + 1) == Strokes(p, n) + [d];
    StrokesOkAppend(Strokes(p, n), d);
  }
}
