/**
 * The split every sweeping scheduler starts from (app.py:34-35, 70-71, 97-98,
 * 125-126): `left` is the sorted list of requests strictly below the head,
 * `right` the sorted list of requests at or above it. Filtering and Python's
 * `sorted` are modelled together by an insertion sort of the kept requests;
 * since the result is the unique ascending arrangement of the same multiset,
 * any sorting algorithm gives the same list.
 */
module Partition {
  import opened Paths

  /** Places `x` into an ascending list. */
  function Insert(x: int, s: seq<int>): (r: seq<int>)
    requires Ascending(s)
    ensures Ascending(r)
    ensures multiset(r) == multiset(s) + multiset{x}
    decreases |s|
  {
    if s == [] || x <= s[0] then [x] + s
    else
      assert s == [s[0]] + s[1..];
      var rest := Insert(x, s[1..]);
      assert AllAtLeast(rest, s[0]) by {
        forall i | 0 <= i < |rest| ensures rest[i] >= s[0] {
          assert rest[i] in multiset(rest);
          assert rest[i] == x || rest[i] in s[1..];
        }
      }
      [s[0]] + rest
  }

  /** Every element of `Insert(x, s)` is `x` or an element of `s`. */
  lemma InsertElements(x: int, s: seq<int>)
    requires Ascending(s)
    ensures forall y :: y in Insert(x, s) ==> y == x || y in s
  {
    forall y | y in Insert(x, s) ensures y == x || y in s {
      assert y in multiset(Insert(x, s));
    }
  }

  /**
   * `left = sorted([r for r in requests if r < head])`: the requests below the
   * head, inserted one by one into an ascending list.
   */
  function Left(requests: seq<int>, head: int): (r: seq<int>)
    ensures Ascending(r) && AllBelow(r, head)
    decreases |requests|
  {
    if requests == [] then []
    else
      var rest := Left(requests[1..], head);
      if requests[0] < head then
        InsertElements(requests[0], rest);
        var r := Insert(requests[0], rest);
        assert forall i :: 0 <= i < |r| ==> r[i] in r;
        r
      else rest
  }

  /**
   * `right = sorted([r for r in requests if r >= head])`: the requests at or
   * above the head, inserted one by one into an ascending list.
   */
  function Right(requests: seq<int>, head: int): (r: seq<int>)
    ensures Ascending(r) && AllAtLeast(r, head)
    decreases |requests|
  {
    if requests == [] then []
    else
      var rest := Right(requests[1..], head);
      if requests[0] >= head then
        InsertElements(requests[0], rest);
        var r := Insert(requests[0], rest);
        assert forall i :: 0 <= i < |r| ==> r[i] in r;
        r
      else rest
  }

  /**
   * `left` holds exactly the requests below the head and `right` exactly the
   * others, each with its multiplicity.
   */
  lemma {:induction false} SplitCounts(requests: seq<int>, head: int)
    ensures forall x :: multiset(Left(requests, head))[x] == if x < head then multiset(requests)[x] else 0
    ensures forall x :: multiset(Right(requests, head))[x] == if x >= head then multiset(requests)[x] else 0
    decreases |requests|
  {
    if requests != [] {
      SplitCounts(requests[1..], head);
      assert requests == [requests[0]] + requests[1..];
    }
  }

  /** Together the two halves are a permutation of the requests. */
  lemma PartitionIsPermutation(requests: seq<int>, head: int)
    ensures multiset(Left(requests, head)) + multiset(Right(requests, head)) == multiset(requests)
  {
    var l, r := Left(requests, head), Right(requests, head);
    SplitCounts(requests, head);
    assert forall x :: (multiset(l) + multiset(r))[x] == multiset(requests)[x];
  }

  /** Every element of either half is one of the requests. */
  lemma PartsAreRequests(requests: seq<int>, head: int)
    ensures forall x :: x in Left(requests, head) ==> x in requests
    ensures forall x :: x in Right(requests, head) ==> x in requests
  {
    var l, r := Left(requests, head), Right(requests, head);
    SplitCounts(requests, head);
    forall x | x in l ensures x in requests {
      assert multiset(l)[x] > 0;
    }
    forall x | x in r ensures x in requests {
      assert multiset(r)[x] > 0;
    }
  }

  /** Python's `reversed`. */
  function Reverse(s: seq<int>): (r: seq<int>)
    ensures |r| == |s|
    ensures forall i :: 0 <= i < |s| ==> r[i] == s[|s| - 1 - i]
    decreases |s|
  {
    if s == [] then [] else Reverse(s[1..]) + [s[0]]
  }

  /** Reversing keeps the elements and turns an ascending list descending. */
  lemma ReverseProperties(s: seq<int>)
    ensures multiset(Reverse(s)) == multiset(s)
    ensures Ascending(s) ==> Descending(Reverse(s))
    decreases |s|
  {
    if s != [] {
      assert s == [s[0]] + s[1..];
      ReverseProperties(s[1..]);
    }
  }
}
