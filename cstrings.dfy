/**
 * The C library string routines the key code relies on: strcmp, strcspn,
 * strncasecmp, bsearch over a sorted table of names and strtok_r.
 * A C string is a `string` holding one char per byte, without the
 * terminating NUL.
 */
module CStrings {
  import opened Wrappers

  /** The C locale's tolower. */
  function ToLower(c: char): char
  {
    if 'A' <= c <= 'Z' then (c as int + 32) as char else c
  }

  /** strcmp: the sign of the first differing byte, a proper prefix comes first. */
  function StrCmp(a: string, b: string): int
  {
    if |a| == 0 && |b| == 0 then 0
    else if |a| == 0 then -1
    else if |b| == 0 then 1
    else if a[0] < b[0] then -1
    else if a[0] > b[0] then 1
    else StrCmp(a[1..], b[1..])
  }

  /** a and b agree on their first k bytes, and k is where a sorts before b. */
  predicate LessAt(a: string, b: string, k: nat)
  {
    k <= |a| && k <= |b| && a[..k] == b[..k] &&
    ((k == |a| && k < |b|) || (k < |a| && k < |b| && a[k] < b[k]))
  }

  /** Lexicographic byte order, stated without recursion. */
  ghost predicate StrLess(a: string, b: string)
  {
    exists k: nat :: LessAt(a, b, k)
  }

  /** strcmp agrees with the lexicographic order and with equality. */
  lemma {:induction false} StrCmpOrder(a: string, b: string)
    ensures StrCmp(a, b) == 0 <==> a == b
    ensures StrCmp(a, b) < 0 <==> StrLess(a, b)
    ensures StrCmp(a, b) > 0 <==> StrLess(b, a)
    decreases |a|
  {
    if |a| == 0 && |b| == 0 {
      forall k: nat | LessAt(a, b, k) ensures false {}
    } else if |a| == 0 {
      assert LessAt(a, b, 0);
      forall k: nat | LessAt(b, a, k) ensures false {}
    } else if |b| == 0 {
      assert LessAt(b, a, 0);
      forall k: nat | LessAt(a, b, k) ensures false {}
    } else if a[0] < b[0] {
      assert LessAt(a, b, 0);
      forall k: nat | LessAt(b, a, k) ensures false {}
    } else if a[0] > b[0] {
      assert LessAt(b, a, 0);
      forall k: nat | LessAt(a, b, k) ensures false {}
    } else {
      StrCmpOrder(a[1..], b[1..]);
      assert a == [a[0]] + a[1..] && b == [b[0]] + b[1..];
      LessAtTail(a, b);
      LessAtTail(b, a);
    }
  }

  /** With equal first bytes, an order witness moves one byte along the strings. */
  lemma LessAtTail(a: string, b: string)
    requires |a| > 0 && |b| > 0 && a[0] == b[0]
    ensures StrLess(a, b) <==> StrLess(a[1..], b[1..])
  {
    if StrLess(a, b) {
      var k: nat :| LessAt(a, b, k);
      if k == 0 {
        assert false;
      }
      assert a[1..][..k - 1] == a[..k][1..];
      assert b[1..][..k - 1] == b[..k][1..];
      assert LessAt(a[1..], b[1..], k - 1);
    }
    if StrLess(a[1..], b[1..]) {
      var k: nat :| LessAt(a[1..], b[1..], k);
      assert a[..k + 1] == [a[0]] + a[1..][..k];
      assert b[..k + 1] == [b[0]] + b[1..][..k];
      assert LessAt(a, b, k + 1);
    }
  }

  /** The byte order is transitive. */
  lemma StrLessTrans(a: string, b: string, c: string)
    requires StrLess(a, b) && StrLess(b, c)
    ensures StrLess(a, c)
  {
    var k1: nat :| LessAt(a, b, k1);
    var k2: nat :| LessAt(b, c, k2);
    if k1 < k2 {
      assert a[..k1] == b[..k1] == c[..k2][..k1];
      assert b[k1] == c[..k2][k1];
      assert LessAt(a, c, k1);
    } else if k2 < k1 {
      assert a[..k2] == a[..k1][..k2] == b[..k1][..k2] == c[..k2];
      assert a[k2] == a[..k1][k2] == b[..k1][k2];
      assert LessAt(a, c, k2);
    } else {
      assert LessAt(a, c, k1);
    }
  }

  /** The byte order is irreflexive. */
  lemma StrLessIrreflexive(a: string)
    ensures !StrLess(a, a)
  {
    StrCmpOrder(a, a);
  }

  /** What the qsort/bsearch tables promise: strictly increasing under strcmp. */
  ghost predicate StrictlySorted(names: seq<string>)
  {
    forall i | 0 < i < |names| :: StrLess(names[i - 1], names[i])
  }

  /** Adjacent order extends to every pair of entries. */
  lemma {:induction false} SortedPairwise(names: seq<string>, i: nat, j: nat)
    requires StrictlySorted(names)
    requires i < j < |names|
    ensures StrLess(names[i], names[j])
    decreases j - i
  {
    if i + 1 < j {
      SortedPairwise(names, i, j - 1);
      StrLessTrans(names[i], names[j - 1], names[j]);
    }
  }

  /** Two sorted tables, the first ending below where the second starts, join into a sorted table. */
  lemma SortedAppend(a: seq<string>, b: seq<string>)
    requires StrictlySorted(a) && StrictlySorted(b)
    requires |a| > 0 && |b| > 0 && StrLess(a[|a| - 1], b[0])
    ensures StrictlySorted(a + b)
  {
    var ab := a + b;
    forall i | 0 < i < |ab| ensures StrLess(ab[i - 1], ab[i]) {
      if i < |a| {
        assert ab[i - 1] == a[i - 1] && ab[i] == a[i];
      } else if i == |a| {
        assert ab[i - 1] == a[|a| - 1] && ab[i] == b[0];
      } else {
        assert ab[i - 1] == b[i - 1 - |a|] && ab[i] == b[i - |a|];
      }
    }
  }

  /** In a strictly sorted table every name occurs at most once. */
  lemma SortedDistinct(names: seq<string>, i: nat, j: nat)
    requires StrictlySorted(names)
    requires i < |names| && j < |names| && names[i] == names[j]
    ensures i == j
  {
    if i < j {
      SortedPairwise(names, i, j);
      StrLessIrreflexive(names[i]);
    } else if j < i {
      SortedPairwise(names, j, i);
      StrLessIrreflexive(names[i]);
    }
  }

  /**
   * bsearch with strcmp as comparator: the index of the entry equal to key,
   * or None when no entry is.
   */
  method BinarySearch(names: seq<string>, key: string) returns (r: Option<nat>)
    requires StrictlySorted(names)
    ensures r.Some? ==> r.value < |names| && names[r.value] == key
    ensures r.None? <==> key !in names
  {
    var lo, hi := 0, |names|;
    while lo < hi
      invariant 0 <= lo <= hi <= |names|
      invariant forall i | 0 <= i < lo :: StrLess(names[i], key)
      invariant forall i | hi <= i < |names| :: StrLess(key, names[i])
      decreases hi - lo
    {
      var mid := lo + (hi - lo) / 2;
      var c := StrCmp(key, names[mid]);
      StrCmpOrder(key, names[mid]);
      if c == 0 {
        return Some(mid);
      } else if c < 0 {
        forall i | mid <= i < |names| ensures StrLess(key, names[i]) {
          if mid < i {
            SortedPairwise(names, mid, i);
            StrLessTrans(key, names[mid], names[i]);
          }
        }
        hi := mid;
      } else {
        forall i | 0 <= i <= mid ensures StrLess(names[i], key) {
          if i < mid {
            SortedPairwise(names, i, mid);
            StrLessTrans(names[i], names[mid], key);
          }
        }
        lo := mid + 1;
      }
    }
    forall i | 0 <= i < |names| ensures names[i] != key {
      StrLessIrreflexive(key);
    }
    return None;
  }

  /**
   * strcspn(s + k, "-+") + k: the index of the first '-' or '+' at or
   * after k, or |s| when there is none.
   */
  function SepFrom(s: string, k: nat): (j: nat)
    requires k <= |s|
    ensures k <= j <= |s|
    ensures j < |s| ==> s[j] == '-' || s[j] == '+'
    decreases |s| - k
  {
    if k == |s| || s[k] == '-' || s[k] == '+' then k else SepFrom(s, k + 1)
  }

  /** strcspn's span is the first separator: none comes before it. */
  lemma {:induction false} SepFromFirst(s: string, k: nat, i: nat)
    requires k <= |s| && k <= i < SepFrom(s, k)
    ensures s[i] != '-' && s[i] != '+'
    decreases |s| - k
  {
    if i > k {
      SepFromFirst(s, k + 1, i);
    }
  }

  /** An offset with no separator from k up to it, and a separator or the end there, is the span. */
  lemma {:induction false} SepFromAt(s: string, k: nat, j: nat)
    requires k <= j <= |s|
    requires forall i | k <= i < j :: s[i] != '-' && s[i] != '+'
    requires j < |s| ==> s[j] == '-' || s[j] == '+'
    ensures SepFrom(s, k) == j
    decreases j - k
  {
    if k < j {
      SepFromAt(s, k + 1, j);
    }
  }

  /** strncasecmp(s, word, |word|) == 0 for a segment of exactly |word| bytes. */
  predicate EqualsIgnoreCase(s: string, word: string)
  {
    |s| == |word| &&
    (|s| == 0 || (ToLower(s[0]) == ToLower(word[0]) && EqualsIgnoreCase(s[1..], word[1..])))
  }

  /** The length of the leading run of non-tab bytes. */
  function FieldSpan(s: string): (n: nat)
    ensures n <= |s|
    ensures forall i | 0 <= i < n :: s[i] != '\t'
    ensures n < |s| ==> s[n] == '\t'
  {
    if |s| == 0 || s[0] == '\t' then 0 else 1 + FieldSpan(s[1..])
  }

  /**
   * The tokens successive strtok_r(…, "\t", …) calls return: maximal runs of
   * non-tab bytes, runs of separators yielding no empty token.
   */
  function Tokens(s: string): seq<string>
    decreases |s|
  {
    if |s| == 0 then []
    else if s[0] == '\t' then Tokens(s[1..])
    else
      var n := FieldSpan(s);
      [s[..n]] + Tokens(s[n..])
  }

  /** s with every tab removed. */
  function DropTabs(s: string): string
  {
    if |s| == 0 then [] else (if s[0] == '\t' then [] else [s[0]]) + DropTabs(s[1..])
  }

  function Concat(ts: seq<string>): string
  {
    if |ts| == 0 then [] else ts[0] + Concat(ts[1..])
  }

  lemma {:induction false} DropTabsAppend(a: string, b: string)
    ensures DropTabs(a + b) == DropTabs(a) + DropTabs(b)
    decreases |a|
  {
    if |a| > 0 {
      assert (a + b)[1..] == a[1..] + b;
      DropTabsAppend(a[1..], b);
    } else {
      assert a + b == b;
    }
  }

  lemma {:induction false} DropTabsNoTab(a: string)
    requires forall i | 0 <= i < |a| :: a[i] != '\t'
    ensures DropTabs(a) == a
    decreases |a|
  {
    if |a| > 0 {
      DropTabsNoTab(a[1..]);
      assert a == [a[0]] + a[1..];
    }
  }

  /**
   * Tokenising on tabs yields non-empty, tab-free tokens that, put back
   * together, are exactly the input without its tabs.
   */
  lemma {:induction false} TokensSplit(s: string)
    ensures forall t | t in Tokens(s) :: |t| > 0 && '\t' !in t
    ensures Concat(Tokens(s)) == DropTabs(s)
    decreases |s|
  {
    if |s| == 0 {
    } else if s[0] == '\t' {
      TokensSplit(s[1..]);
    } else {
      var n := FieldSpan(s);
      TokensSplit(s[n..]);
      assert s == s[..n] + s[n..];
      DropTabsAppend(s[..n], s[n..]);
      DropTabsNoTab(s[..n]);
      var ts := [s[..n]] + Tokens(s[n..]);
      assert ts[1..] == Tokens(s[n..]);
    }
  }
}
