/**
 * Head movement along a path of cylinders, and the sweep orders the
 * schedulers produce. Every scheduler in app.py accumulates
 * `abs(current - next)` while walking its output; `PathLength` is that sum
 * stated once, as a function of the start position and the visited cylinders.
 */
module Paths {

  function Abs(x: int): nat
  {
    if x < 0 then -x else x
  }

  /** The cylinder the head rests on after visiting `s` from `start`. */
  function End(start: int, s: seq<int>): int
  {
    if s == [] then start else s[|s| - 1]
  }

  /** Total head movement along start -> s[0] -> s[1] -> ... -> s[|s|-1]. */
  function PathLength(start: int, s: seq<int>): nat
    decreases |s|
  {
    if s == [] then 0 else Abs(start - s[0]) + PathLength(s[0], s[1..])
  }

  /** Appending one stop adds the distance from the current resting place. */
  lemma {:induction false} PathLengthAppend(start: int, s: seq<int>, x: int)
    ensures PathLength(start, s + [x]) == PathLength(start, s) + Abs(End(start, s) - x)
    decreases |s|
  {
    if s == [] {
      assert s + [x] == [x];
      assert PathLength(x, []) == 0;
    } else {
      assert (s + [x])[0] == s[0];
      assert (s + [x])[1..] == s[1..] + [x];
      PathLengthAppend(s[0], s[1..], x);
    }
  }

  /** A path split in two: the second half starts where the first one ends. */
  lemma {:induction false} PathLengthConcat(start: int, a: seq<int>, b: seq<int>)
    ensures PathLength(start, a + b) == PathLength(start, a) + PathLength(End(start, a), b)
    ensures End(start, a + b) == End(End(start, a), b)
    decreases |a|
  {
    if a == [] {
      assert a + b == b;
    } else {
      assert (a + b)[0] == a[0];
      assert (a + b)[1..] == a[1..] + b;
      PathLengthConcat(a[0], a[1..], b);
    }
  }

  predicate Ascending(s: seq<int>)
  {
    forall i, j :: 0 <= i < j < |s| ==> s[i] <= s[j]
  }

  predicate Descending(s: seq<int>)
  {
    forall i, j :: 0 <= i < j < |s| ==> s[i] >= s[j]
  }

  predicate AllAtLeast(s: seq<int>, bound: int)
  {
    forall i :: 0 <= i < |s| ==> s[i] >= bound
  }

  predicate AllBelow(s: seq<int>, bound: int)
  {
    forall i :: 0 <= i < |s| ==> s[i] < bound
  }

  predicate AllAtMost(s: seq<int>, bound: int)
  {
    forall i :: 0 <= i < |s| ==> s[i] <= bound
  }

  /** Moving monotonically upward costs exactly the distance climbed. */
  lemma {:induction false} AscendingPath(start: int, s: seq<int>)
    requires Ascending(s)
    requires s != [] ==> start <= s[0]
    ensures PathLength(start, s) == End(start, s) - start
    decreases |s|
  {
    if s != [] {
      assert Ascending(s[1..]) by {
        forall i, j | 0 <= i < j < |s[1..]| ensures s[1..][i] <= s[1..][j] {
          assert s[1..][i] == s[i + 1] && s[1..][j] == s[j + 1];
        }
      }
      AscendingPath(s[0], s[1..]);
      assert End(s[0], s[1..]) == End(start, s);
    }
  }

  /** Moving monotonically downward costs exactly the distance descended. */
  lemma {:induction false} DescendingPath(start: int, s: seq<int>)
    requires Descending(s)
    requires s != [] ==> start >= s[0]
    ensures PathLength(start, s) == start - End(start, s)
    decreases |s|
  {
    if s != [] {
      assert Descending(s[1..]) by {
        forall i, j | 0 <= i < j < |s[1..]| ensures s[1..][i] >= s[1..][j] {
          assert s[1..][i] == s[i + 1] && s[1..][j] == s[j + 1];
        }
      }
      DescendingPath(s[0], s[1..]);
      assert End(s[0], s[1..]) == End(start, s);
    }
  }

  /**
   * Up-then-down sweep around `head`: every cylinder at or above `head` comes
   * first, in ascending order; every cylinder below `head` comes after, in
   * descending order.
   */
  ghost predicate UpThenDown(head: int, s: seq<int>)
  {
    forall i, j :: 0 <= i < j < |s| ==>
      (s[j] >= head ==> s[i] >= head && s[i] <= s[j]) &&
      (s[i] < head ==> s[j] < head && s[i] >= s[j])
  }

  /**
   * Down-then-up sweep around `head`: every cylinder below `head` comes first,
   * in descending order; every cylinder at or above `head` comes after, in
   * ascending order.
   */
  ghost predicate DownThenUp(head: int, s: seq<int>)
  {
    forall i, j :: 0 <= i < j < |s| ==>
      (s[j] < head ==> s[i] < head && s[i] >= s[j]) &&
      (s[i] >= head ==> s[j] >= head && s[i] <= s[j])
  }

  /**
   * Circular sweep around `head`: every cylinder at or above `head` comes
   * first, in ascending order; every cylinder below `head` comes after, also
   * in ascending order.
   */
  ghost predicate UpThenWrap(head: int, s: seq<int>)
  {
    forall i, j :: 0 <= i < j < |s| ==>
      (s[j] >= head ==> s[i] >= head && s[i] <= s[j]) &&
      (s[i] < head ==> s[j] < head && s[i] <= s[j])
  }

  lemma UpThenDownConcat(head: int, a: seq<int>, b: seq<int>)
    requires Ascending(a) && AllAtLeast(a, head)
    requires Descending(b) && AllBelow(b, head)
    ensures UpThenDown(head, a + b)
  {
    var s := a + b;
    forall i, j | 0 <= i < j < |s|
      ensures (s[j] >= head ==> s[i] >= head && s[i] <= s[j])
      ensures (s[i] < head ==> s[j] < head && s[i] >= s[j])
    {
      if j < |a| {
      } else if i < |a| {
        assert s[j] == b[j - |a|];
      } else {
        assert s[i] == b[i - |a|] && s[j] == b[j - |a|];
      }
    }
  }

  lemma DownThenUpConcat(head: int, a: seq<int>, b: seq<int>)
    requires Descending(a) && AllBelow(a, head)
    requires Ascending(b) && AllAtLeast(b, head)
    ensures DownThenUp(head, a + b)
  {
    var s := a + b;
    forall i, j | 0 <= i < j < |s|
      ensures (s[j] < head ==> s[i] < head && s[i] >= s[j])
      ensures (s[i] >= head ==> s[j] >= head && s[i] <= s[j])
    {
      if j < |a| {
      } else if i < |a| {
        assert s[j] == b[j - |a|];
      } else {
        assert s[i] == b[i - |a|] && s[j] == b[j - |a|];
      }
    }
  }

  lemma UpThenWrapConcat(head: int, a: seq<int>, b: seq<int>)
    requires Ascending(a) && AllAtLeast(a, head)
    requires Ascending(b) && AllBelow(b, head)
    ensures UpThenWrap(head, a + b)
  {
    var s := a + b;
    forall i, j | 0 <= i < j < |s|
      ensures (s[j] >= head ==> s[i] >= head && s[i] <= s[j])
      ensures (s[i] < head ==> s[j] < head && s[i] <= s[j])
    {
      if j < |a| {
      } else if i < |a| {
        assert s[j] == b[j - |a|];
      } else {
        assert s[i] == b[i - |a|] && s[j] == b[j - |a|];
      }
    }
  }

  /** Extending an ascending run with a stop no lower than its last element. */
  lemma AscendingExtend(s: seq<int>, x: int)
    requires Ascending(s)
    requires s != [] ==> s[|s| - 1] <= x
    ensures Ascending(s + [x])
  {
  }

  /** Extending a descending run with a stop no higher than its last element. */
  lemma DescendingExtend(s: seq<int>, x: int)
    requires Descending(s)
    requires s != [] ==> s[|s| - 1] >= x
    ensures Descending(s + [x])
  {
  }
}
