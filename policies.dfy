/**
 * What each scheduler of app.py services, as a function of its inputs, and
 * the properties of those orders: permutation of the requests (plus the
 * boundary stops SCAN and C-SCAN add), the sweep shape, SSTF's greedy choice,
 * and closed forms for the head movement of the sweeping policies.
 */
module Policies {
  import opened Paths
  import opened Sweeps

  /** The six algorithms, in the order the comparator fills its table (app.py:147-158). */
  datatype Algorithm = Fcfs | Sstf | Scan | CScan | CLook | Look

  datatype Option<T> = None | Some(value: T)

  /** The name each algorithm goes by in a request and in the comparator's table. */
  function Name(a: Algorithm): string
  {
    match a
    case Fcfs => "FCFS"
    case Sstf => "SSTF"
    case Scan => "SCAN"
    case CScan => "C-SCAN"
    case CLook => "C-LOOK"
    case Look => "LOOK"
  }

  /**
   * The algorithm a name selects (app.py:177-188): only the six exact names
   * are recognised, so every algorithm is selected by its own name and by no
   * other string.
   */
  function Parse(s: string): (r: Option<Algorithm>)
    ensures r.Some? ==> Name(r.value) == s
    ensures forall a :: Name(a) == s ==> r == Some(a)
  {
    if s == "FCFS" then Some(Fcfs)
    else if s == "SSTF" then Some(Sstf)
    else if s == "SCAN" then Some(Scan)
    else if s == "C-SCAN" then Some(CScan)
    else if s == "C-LOOK" then Some(CLook)
    else if s == "LOOK" then Some(Look)
    else None
  }

  // ------------------------------------------------------ Python's `min`

  /**
   * `min(xs, key=key)` as a position: Python scans from the front and a later
   * element replaces the best so far only when its key is strictly smaller.
   */
  function ArgMin<T>(xs: seq<T>, key: T -> int): (i: nat)
    requires xs != []
    ensures i < |xs|
    decreases |xs|
  {
    if |xs| == 1 then 0
    else
      var k := 1 + ArgMin(xs[1..], key);
      if key(xs[0]) <= key(xs[k]) then 0 else k
  }

  /**
   * `ArgMin` is the first position whose key is smallest: no element has a
   * smaller key, and every earlier element has a strictly larger one.
   */
  lemma {:induction false} ArgMinIsFirstMinimum<T>(xs: seq<T>, key: T -> int)
    requires xs != []
    ensures var i := ArgMin(xs, key);
      forall j :: 0 <= j < |xs| ==> key(xs[i]) <= key(xs[j])
    ensures var i := ArgMin(xs, key);
      forall j :: 0 <= j < i ==> key(xs[j]) > key(xs[i])
    decreases |xs|
  {
    if |xs| > 1 {
      var tail := xs[1..];
      ArgMinIsFirstMinimum(tail, key);
      var k := 1 + ArgMin(tail, key);
      assert xs[k] == tail[k - 1];
      forall j | 1 <= j < |xs|
        ensures key(xs[k]) <= key(xs[j])
      {
        assert xs[j] == tail[j - 1];
      }
      forall j | 1 <= j < k
        ensures key(xs[j]) > key(xs[k])
      {
        assert xs[j] == tail[j - 1];
      }
    }
  }

  // ---------------------------------------------------------------- SSTF

  /** `list.remove(x)`: drops the first occurrence of `x`. */
  function RemoveFirst(s: seq<int>, x: int): (r: seq<int>)
    requires x in s
    ensures |r| == |s| - 1
    decreases |s|
  {
    if s[0] == x then s[1..] else [s[0]] + RemoveFirst(s[1..], x)
  }

  /** Removing `x` takes exactly one copy of `x` out of the list. */
  lemma {:induction false} RemoveFirstCounts(s: seq<int>, x: int)
    requires x in s
    ensures multiset(RemoveFirst(s, x)) == multiset(s) - multiset{x}
    decreases |s|
  {
    assert s == [s[0]] + s[1..];
    if s[0] != x {
      RemoveFirstCounts(s[1..], x);
    }
  }

  /** The position of the first occurrence of `x` (Python's `list.index`). */
  function IndexOf(s: seq<int>, x: int): (i: nat)
    requires x in s
    ensures i < |s| && s[i] == x && x !in s[..i]
    decreases |s|
  {
    if s[0] == x then 0
    else
      var k := IndexOf(s[1..], x);
      assert s[..k + 1] == [s[0]] + s[1..][..k];
      k + 1
  }

  /**
   * `RemoveFirst` takes out the first occurrence of `x` and keeps the other
   * requests in their order.
   */
  lemma {:induction false} RemoveFirstOccurrence(s: seq<int>, x: int)
    requires x in s
    ensures RemoveFirst(s, x) == s[..IndexOf(s, x)] + s[IndexOf(s, x) + 1..]
    decreases |s|
  {
    var i := IndexOf(s, x);
    if s[0] == x {
      assert s[..i] == [];
    } else {
      var tail := s[1..];
      var k := IndexOf(tail, x);
      assert i == k + 1;
      assert RemoveFirst(tail, x) == tail[..k] + tail[k + 1..] by {
        RemoveFirstOccurrence(tail, x);
      }
      calc {
        RemoveFirst(s, x);
        [s[0]] + RemoveFirst(tail, x);
        [s[0]] + (tail[..k] + tail[k + 1..]);
        ([s[0]] + tail[..k]) + tail[k + 1..];
        { assert [s[0]] + tail[..k] == s[..i]; }
        s[..i] + tail[k + 1..];
        { assert tail[k + 1..] == s[i + 1..]; }
        s[..i] + s[i + 1..];
      }
    }
  }

  /** The request SSTF services next from `current`: `min(pending, key=lambda x: abs(x - current))`. */
  function Closest(pending: seq<int>, current: int): (c: int)
    requires pending != []
    ensures c in pending
  {
    pending[ArgMin(pending, x => Abs(x - current))]
  }

  /**
   * No pending request is closer to `current` than `Closest`, and `Closest`
   * first occurs at a position where every earlier request is strictly
   * further from `current`.
   */
  lemma ClosestOfAll(pending: seq<int>, current: int)
    requires pending != []
    ensures forall x :: x in pending ==> Abs(Closest(pending, current) - current) <= Abs(x - current)
    ensures exists j ::
              0 <= j < |pending| && pending[j] == Closest(pending, current) &&
              forall i :: 0 <= i < j ==> Abs(pending[i] - current) > Abs(pending[j] - current)
  {
    var key := x => Abs(x - current);
    ArgMinIsFirstMinimum(pending, key);
    var c := Closest(pending, current);
    forall x | x in pending ensures Abs(c - current) <= Abs(x - current) {
      var j :| 0 <= j < |pending| && pending[j] == x;
      assert key(pending[j]) == Abs(x - current);
    }
    var best := ArgMin(pending, key);
    assert pending[best] == c;
    assert forall i :: 0 <= i < best ==> key(pending[i]) > key(pending[best]);
  }

  /** The order in which SSTF services `pending` with the head at `current` (app.py:21-26). */
  function SstfOrder(current: int, pending: seq<int>): seq<int>
    decreases |pending|
  {
    if pending == [] then []
    else [Closest(pending, current)] + SstfOrder(Closest(pending, current), RemoveFirst(pending, Closest(pending, current)))
  }

  /** SSTF services every request exactly once. */
  lemma {:induction false} SstfPermutation(current: int, pending: seq<int>)
    ensures multiset(SstfOrder(current, pending)) == multiset(pending)
    ensures |SstfOrder(current, pending)| == |pending|
    decreases |pending|
  {
    if pending != [] {
      var c := Closest(pending, current);
      var rest := RemoveFirst(pending, c);
      SstfPermutation(c, rest);
      RemoveFirstCounts(pending, c);
      assert multiset(pending) == multiset(rest) + multiset{c};
    }
  }

  /** SSTF's first pick is at least as close to the start as every request. */
  lemma SstfFirstPick(current: int, pending: seq<int>)
    requires pending != []
    ensures var r := SstfOrder(current, pending);
      |r| == |pending| && forall j :: 0 <= j < |r| ==> Abs(r[0] - current) <= Abs(r[j] - current)
  {
    var r := SstfOrder(current, pending);
    SstfPermutation(current, pending);
    ClosestOfAll(pending, current);
    assert r[0] == Closest(pending, current);
    forall j | 0 <= j < |r|
      ensures Abs(r[0] - current) <= Abs(r[j] - current)
    {
      assert r[j] in multiset(r);
      assert r[j] in multiset(pending);
      assert r[j] in pending;
    }
  }

  /**
   * Greedy choice: the k-th cylinder SSTF services is at least as close to
   * where the head rests after the first k as every request serviced later,
   * that is (by `SstfPermutation`) as every request still pending.
   */
  lemma {:induction false} SstfGreedy(current: int, pending: seq<int>, k: nat)
    requires k < |pending|
    ensures |SstfOrder(current, pending)| == |pending|
    ensures var r := SstfOrder(current, pending);
      var here := if k == 0 then current else r[k - 1];
      forall j :: k <= j < |r| ==> Abs(r[k] - here) <= Abs(r[j] - here)
    decreases |pending|
  {
    if k == 0 {
      SstfFirstPick(current, pending);
    } else {
      var r := SstfOrder(current, pending);
      var c := Closest(pending, current);
      var rest := RemoveFirst(pending, c);
      var r' := SstfOrder(c, rest);
      assert r == [c] + r';
      SstfGreedy(c, rest, k - 1);
      var here := r[k - 1];
      assert here == if k - 1 == 0 then c else r'[k - 2];
      forall j | k <= j < |r|
        ensures Abs(r[k] - here) <= Abs(r[j] - here)
      {
        assert r[j] == r'[j - 1];
      }
    }
  }

  // ------------------------------------------------------------ catalogue

  /** The sequence algorithm `a` returns for one input (app.py:177-188). */
  function Order(a: Algorithm, requests: seq<int>, head: int, cylinders: int, direction: string): seq<int>
  {
    match a
    case Fcfs => requests
    case Sstf => SstfOrder(head, requests)
    case Scan => ScanOrder(requests, head, cylinders, direction)
    case CScan => CScanOrder(requests, head, cylinders)
    case CLook => CLookOrder(requests, head)
    case Look => LookOrder(requests, head, direction)
  }
}
