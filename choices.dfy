/**
 * The integer selection rules of the vlc_actions_do_va dispatcher in
 * src/misc/actions.c: stepping through the choices of a variable (audio,
 * subtitle and program tracks, aspect ratio and crop), toggling
 * subtitles, the loop/repeat tristate and the subtitle text scale. The
 * current value and the list of choices are parameters; the new index or
 * value is the result.
 */
module Choices {
  import opened Wrappers
  import opened Seqs

  /** No value occurs twice in the list. */
  predicate Distinct<T(==)>(values: seq<T>)
  {
    forall a, b | 0 <= a < b < |values| :: values[a] != values[b]
  }

  /**
   * Where the dispatcher's for loop over the choices stops: the first
   * index holding v, or the count when no choice is v.
   */
  function Position<T(==)>(values: seq<T>, v: T): (i: nat)
    ensures i <= |values|
    ensures i < |values| <==> v in values
    ensures i < |values| ==> values[i] == v
  {
    match IndexOf(values, v)
    case None => |values|
    case Some(i) => i
  }

  /** In a list without repeats, a value stands at its own position. */
  lemma PositionOfDistinct<T>(values: seq<T>, i: nat)
    requires Distinct(values) && i < |values|
    ensures Position(values, values[i]) == i
  {
    var j := Position(values, values[i]);
    assert values[j] == values[i];
  }

  /** The dispatcher's search loop. */
  method FindPosition<T(==)>(values: seq<T>, v: T) returns (i: nat)
    ensures i == Position(values, v)
  {
    var found := Find(values, v);
    i := if found.Some? then found.value else |values|;
  }

  /**
   * ACTIONID_SUBTITLE_TRACK (reverse false) and
   * ACTIONID_SUBTITLE_REVERSE_TRACK (reverse true): the index of the
   * spu-es choice to select, None when there is at most one choice.
   */
  function SubtitleNext(values: seq<int>, current: int, reverse: bool): (r: Option<nat>)
    ensures r.Some? <==> |values| > 1
    ensures r.Some? ==> r.value < |values|
  {
    var n := |values|;
    if n <= 1 then None
    else
      var i := Position(values, current);
      if i == n then Some(0)
      else if i == n - 1 && !reverse then Some(0)
      else if i == 0 && reverse then Some(n - 1)
      else Some(if !reverse then i + 1 else i - 1)
  }

  /**
   * Subtitle tracks cycle: an unknown value selects the first choice, the
   * next track is one further round the list and the reverse one one back.
   */
  lemma SubtitleNextCycles(values: seq<int>, current: int, reverse: bool)
    requires |values| > 1
    ensures current !in values ==> SubtitleNext(values, current, reverse) == Some(0)
    ensures current in values ==>
      var n, i := |values|, Position(values, current);
      SubtitleNext(values, current, reverse) == Some(if reverse then (i + n - 1) % n else (i + 1) % n)
  {
    var n, i := |values|, Position(values, current);
    if current in values {
      if reverse {
        if i == 0 {
          ModBelow(n - 1, n);
        } else {
          ModWrap(i + n - 1, n);
        }
      } else if i == n - 1 {
        ModWrap(i + 1, n);
      } else {
        ModBelow(i + 1, n);
      }
    }
  }

  /** With distinct choices, the reverse step undoes the forward step. */
  lemma SubtitleNextInverse(values: seq<int>, i: nat)
    requires |values| > 1 && Distinct(values) && i < |values|
    ensures SubtitleNext(values, values[SubtitleNext(values, values[i], false).value], true) == Some(i)
  {
    PositionOfDistinct(values, i);
    var j := SubtitleNext(values, values[i], false).value;
    PositionOfDistinct(values, j);
  }

  /** The subtitle track case of the dispatcher. */
  method SubtitleTrack(values: seq<int>, current: int, reverse: bool) returns (r: Option<nat>)
    ensures r == SubtitleNext(values, current, reverse)
  {
    var n := |values|;
    if n <= 1 {
      return None;
    }
    var i := FindPosition(values, current);
    if i == n {
      i := 0;
    } else if i == n - 1 && !reverse {
      i := 0;
    } else if i == 0 && reverse {
      i := n - 1;
    } else {
      i := if !reverse then i + 1 else i - 1;
    }
    return Some(i);
  }

  /**
   * ACTIONID_PROGRAM_SID_NEXT (next true) and ACTIONID_PROGRAM_SID_PREV,
   * as written with nested tests: the same rule as the subtitle tracks, so
   * it wraps in both directions.
   */
  function ProgramNext(values: seq<int>, current: int, next: bool): (r: Option<nat>)
    ensures r == SubtitleNext(values, current, !next)
  {
    var n := |values|;
    if n <= 1 then None
    else
      var i := Position(values, current);
      if i == n then Some(0)
      else if next then (if i == n - 1 then Some(0) else Some(i + 1))
      else (if i == 0 then Some(n - 1) else Some(i - 1))
  }

  /** The program case of the dispatcher. */
  method ProgramSid(values: seq<int>, current: int, next: bool) returns (r: Option<nat>)
    ensures r == ProgramNext(values, current, next)
  {
    var n := |values|;
    if n <= 1 {
      return None;
    }
    var i := FindPosition(values, current);
    if i == n {
      i := 0;
    } else if next {
      if i == n - 1 {
        i := 0;
      } else {
        i := i + 1;
      }
    } else {
      if i == 0 {
        i := n - 1;
      } else {
        i := i - 1;
      }
    }
    return Some(i);
  }

  /**
   * ACTIONID_AUDIO_TRACK: the index of the audio-es choice to select, None
   * with fewer than two choices. The last choice steps to index 1, so the
   * first choice (no audio) is only reached from an unknown value.
   */
  function AudioNext(values: seq<int>, current: int): (r: Option<nat>)
    ensures r.Some? <==> |values| > 1
    ensures r.Some? ==> r.value < |values|
  {
    var n := |values|;
    if n <= 1 then None
    else
      var i := Position(values, current);
      if i == n then Some(0)
      else if i == n - 1 then Some(1)
      else Some(i + 1)
  }

  /**
   * From a known value audio tracks cycle through the choices after the
   * first: index i steps to i mod (n - 1) + 1, never to 0.
   */
  lemma AudioNextCycles(values: seq<int>, current: int)
    requires |values| > 1
    ensures current !in values ==> AudioNext(values, current) == Some(0)
    ensures current in values ==>
      AudioNext(values, current) == Some(Position(values, current) % (|values| - 1) + 1)
  {
    var n, i := |values|, Position(values, current);
    if current in values {
      if i == n - 1 {
        ModWrap(i, n - 1);
      } else {
        ModBelow(i, n - 1);
      }
    }
  }

  /** The audio track case of the dispatcher. */
  method AudioTrack(values: seq<int>, current: int) returns (r: Option<nat>)
    ensures r == AudioNext(values, current)
  {
    var n := |values|;
    if n <= 1 {
      return None;
    }
    var i := FindPosition(values, current);
    if i == n {
      i := 0;
    } else if i == n - 1 {
      i := 1;
    } else {
      i := i + 1;
    }
    return Some(i);
  }

  /** The spu-es and spu-choice values a subtitle toggle leaves. */
  datatype SpuState = SpuState(es: int, choice: int)

  /**
   * ACTIONID_SUBTITLE_TOGGLE: with at least two choices, switches spu-es
   * between the first choice and the remembered spu-choice; a remembered
   * first choice is replaced by the second, and an unknown one, when a
   * switch is due, by the first.
   */
  function SubtitleToggle(values: seq<int>, s: SpuState): (r: Option<SpuState>)
    ensures r.Some? <==> |values| > 1
    ensures r.Some? ==> r.value.es in values
    ensures r.Some? ==> r.value.es == values[0] || r.value.es == r.value.choice
  {
    var n := |values|;
    if n <= 1 then None
    else
      var found := Position(values, s.choice);
      var sel := if found == 0 then 1 else found;
      var selId := if found == 0 then values[1] else s.choice;
      var newIndex := if s.es != selId && sel < n then sel else 0;
      var newChoice := if s.es != selId && sel >= n then values[0] else selId;
      Some(SpuState(values[newIndex], newChoice))
  }

  /**
   * Toggling twice restores the selection: with distinct choices, a
   * remembered track after the first, and spu-es either off (the first
   * choice) or on that track.
   */
  lemma SubtitleToggleTwice(values: seq<int>, s: SpuState, k: nat)
    requires Distinct(values) && 1 <= k < |values| && s.choice == values[k]
    requires s.es == values[0] || s.es == values[k]
    ensures SubtitleToggle(values, s).Some?
    ensures SubtitleToggle(values, SubtitleToggle(values, s).value) == Some(s)
    ensures SubtitleToggle(values, s).value.es != s.es
  {
    PositionOfDistinct(values, k);
    assert values[0] != values[k];
  }

  /** The subtitle toggle case of the dispatcher. */
  method SubtitleToggleStep(values: seq<int>, s: SpuState) returns (r: Option<SpuState>)
    ensures r == SubtitleToggle(values, s)
  {
    var n := |values|;
    if n <= 1 {
      return None;
    }
    var selIndex := FindPosition(values, s.choice);
    var selId := s.choice;
    if selIndex == 0 {
      selIndex := 1;
      selId := values[1];
    }
    var choice := selId;
    var newIndex := 0;
    if s.es != selId {
      if selIndex >= n {
        choice := values[0];
      } else {
        newIndex := selIndex;
      }
    }
    return Some(SpuState(values[newIndex], choice));
  }

  /**
   * ACTIONID_ASPECT_RATIO and ACTIONID_CROP: the index of the choice after
   * the current string, wrapping to the first choice after the last one
   * and when the current string is not a choice. The list is read at the
   * resulting index unchecked, so the dispatcher needs a choice.
   */
  function NextChoice<T(==)>(values: seq<T>, current: T): (i: nat)
    requires |values| > 0
    ensures i < |values|
  {
    var p := Position(values, current);
    if p == |values| || p + 1 == |values| then 0 else p + 1
  }

  /** The step is one further round the list, and restarts at 0 from an unknown value. */
  lemma NextChoiceCycles<T>(values: seq<T>, current: T)
    requires |values| > 0
    ensures current !in values ==> NextChoice(values, current) == 0
    ensures current in values ==> NextChoice(values, current) == (Position(values, current) + 1) % |values|
  {
    var n, p := |values|, Position(values, current);
    if current in values {
      if p + 1 == n {
        ModWrap(p + 1, n);
      } else {
        ModBelow(p + 1, n);
      }
    }
  }

  /** The value after k presses, starting from value v. */
  function Presses<T(==)>(values: seq<T>, v: T, k: nat): T
    requires |values| > 0
  {
    if k == 0 then v else values[NextChoice(values, Presses(values, v, k - 1))]
  }

  /** With distinct choices, k presses from the first choice reach choice k for each k < n, ... */
  lemma {:induction false} PressesWalk<T>(values: seq<T>, k: nat)
    requires Distinct(values) && k < |values|
    ensures Presses(values, values[0], k) == values[k]
  {
    if k > 0 {
      PressesWalk(values, k - 1);
      PressOnce(values, k - 1);
      assert Presses(values, values[0], k) == values[NextChoice(values, values[k - 1])];
    }
  }

  lemma PressOnce<T>(values: seq<T>, j: nat)
    requires Distinct(values) && j < |values|
    ensures NextChoice(values, values[j]) == if j + 1 < |values| then j + 1 else 0
  {
    PositionOfDistinct(values, j);
  }

  /** ... and n presses come back to the first choice. */
  lemma PressesReturn<T>(values: seq<T>)
    requires Distinct(values) && |values| > 0
    ensures Presses(values, values[0], |values|) == values[0]
  {
    PressesWalk(values, |values| - 1);
    PressOnce(values, |values| - 1);
  }

  lemma ModBelow(a: int, n: int)
    requires 0 <= a < n
    ensures a % n == a
  {
  }

  lemma ModWrap(a: int, n: int)
    requires n <= a < 2 * n
    ensures a % n == a - n
  {
  }

  /** The aspect-ratio and crop case of the dispatcher, with its loop that steps past the match. */
  method StepChoice(values: seq<string>, current: string) returns (i: nat)
    requires |values| > 0
    ensures i == NextChoice(values, current)
  {
    i := 0;
    while i < |values|
      invariant i <= |values|
      invariant forall j | 0 <= j < i :: values[j] != current
    {
      if values[i] == current {
        i := i + 1;
        break;
      }
      i := i + 1;
    }
    if i == |values| {
      i := 0;
    }
  }

  /** The playlist's "repeat" and "loop" flags. */
  datatype LoopMode = LoopMode(repeat: bool, loop: bool)

  /**
   * ACTIONID_LOOP: repeat is switched off (loop is left as it is), else
   * loop becomes repeat, else loop is switched on.
   */
  function LoopNext(m: LoopMode): (r: LoopMode)
    ensures m.repeat ==> !r.repeat && r.loop == m.loop
    ensures !m.repeat && m.loop ==> r.repeat && !r.loop
    ensures !m.repeat && !m.loop ==> !r.repeat && r.loop
  {
    if m.repeat then m.(repeat := false)
    else if m.loop then LoopMode(true, false)
    else m.(loop := true)
  }

  /**
   * Off, all, one and back to off: from any state with at most one flag
   * set, three presses return to it and each press changes the state;
   * with both set, one press reaches that cycle.
   */
  lemma LoopCycle(m: LoopMode)
    ensures !(m.repeat && m.loop) ==> LoopNext(LoopNext(LoopNext(m))) == m
    ensures LoopNext(m) != m
    ensures !(LoopNext(m).repeat && LoopNext(m).loop)
  {
  }

  /** The three text-scale actions. */
  datatype ScaleAction = ScaleDown | ScaleUp | ScaleNormal

  /** VLC_CLIP. */
  function Clip(v: int, lo: int, hi: int): int
  {
    if v < lo then lo else if v > hi then hi else v
  }

  /**
   * The sub-text-scale the text-scale actions set: 100 for normal, else
   * a step of 25 up or down kept within [10, 500].
   */
  function TextScale(action: ScaleAction, scale: int): (r: int)
    ensures 10 <= r <= 500
    ensures action == ScaleNormal ==> r == 100
    ensures action == ScaleUp ==> r >= scale || r == 500
    ensures action == ScaleDown ==> r <= scale || r == 10
  {
    if action == ScaleNormal then 100
    else Clip(scale + (if action == ScaleUp then 1 else -1) * 25, 10, 500)
  }

  /** Away from the bounds, a step down undoes a step up and the other way round. */
  lemma TextScaleInverse(scale: int)
    ensures 10 <= scale <= 475 ==> TextScale(ScaleDown, TextScale(ScaleUp, scale)) == scale
    ensures 35 <= scale <= 500 ==> TextScale(ScaleUp, TextScale(ScaleDown, scale)) == scale
  {
  }
}
