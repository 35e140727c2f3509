/**
 * The six schedulers of app.py as the loops they are: each walks its output,
 * appending the next cylinder and adding the distance from the current head
 * position. Each method is proved to return the order its policy defines
 * (Sweeps, Policies) and, as its total, the head movement along that order.
 */
module Schedulers {
  import opened Paths
  import opened Partition
  import opened Sweeps
  import opened Policies

  /**
   * The state every scheduler loop keeps: `current` is where the head rests
   * after visiting `sequence` from `head`, and `total` is the movement so far.
   */
  predicate Walked(head: int, sequence: seq<int>, current: int, total: int)
  {
    current == End(head, sequence) && total == PathLength(head, sequence)
  }

  /** One step of any scheduler loop: append `r`, add `abs(current - r)`, move to `r`. */
  lemma Step(head: int, sequence: seq<int>, current: int, total: int, r: int)
    requires Walked(head, sequence, current, total)
    ensures Walked(head, sequence + [r], r, total + Abs(current - r))
  {
    PathLengthAppend(head, sequence, r);
  }

  /**
   * The loop every scheduler repeats over a list of stops: append `r`, add
   * `abs(current - r)`, move to `r` (app.py:9-12, 38-41, 46-49, 51-54, 59-62,
   * 74-90, 100-103, 114-117, 128-131, 136-139).
   */
  method Visit(ghost head: int, sequence: seq<int>, current: int, total: int, stops: seq<int>)
    returns (sequence': seq<int>, current': int, total': int)
    requires Walked(head, sequence, current, total)
    ensures sequence' == sequence + stops
    ensures Walked(head, sequence', current', total')
  {
    sequence', current', total' := sequence, current, total;
    for i := 0 to |stops|
      invariant sequence' == sequence + stops[..i]
      invariant Walked(head, sequence', current', total')
    {
      var r := stops[i];
      Step(head, sequence', current', total', r);
      assert stops[..i + 1] == stops[..i] + [r];
      sequence' := sequence' + [r];
      total' := total' + Abs(current' - r);
      current' := r;
    }
    assert stops[..|stops|] == stops;
  }

  /** `fcfs` (app.py:5-13): the requests in arrival order. */
  method Fcfs(requests: seq<int>, head: int) returns (sequence: seq<int>, total: int)
    ensures sequence == requests
    ensures total == PathLength(head, requests)
  {
    var current;
    sequence, current, total := Visit(head, [], head, 0, requests);
  }

  /**
   * `sstf` (app.py:15-28): repeatedly service the pending request closest to
   * the head (the first such one on a tie) and remove it from the pending list.
   */
  method Sstf(requests: seq<int>, head: int) returns (sequence: seq<int>, total: int)
    ensures sequence == SstfOrder(head, requests)
    ensures total == PathLength(head, sequence)
  {
    sequence, total := [], 0;
    var current := head;
    var pending := requests;
    while pending != []
      invariant sequence + SstfOrder(current, pending) == SstfOrder(head, requests)
      invariant Walked(head, sequence, current, total)
      decreases |pending|
    {
      var closest := Closest(pending, current);
      var rest := RemoveFirst(pending, closest);
      assert SstfOrder(current, pending) == [closest] + SstfOrder(closest, rest);
      assert sequence + SstfOrder(current, pending) == (sequence + [closest]) + SstfOrder(closest, rest);
      Step(head, sequence, current, total, closest);
      total := total + Abs(current - closest);
      sequence := sequence + [closest];
      current := closest;
      pending := rest;
    }
    assert sequence == SstfOrder(head, requests);
  }

  /**
   * `scan` (app.py:30-64): split the requests around the head, then sweep.
   */
  method Scan(requests: seq<int>, head: int, cylinders: int, direction: string)
    returns (sequence: seq<int>, total: int)
    requires ValidInput(requests, head, cylinders)
    ensures sequence == ScanOrder(requests, head, cylinders, direction)
    ensures total == PathLength(head, sequence)
  {
    var left := Left(requests, head);
    var right := Right(requests, head);
    ValidSplit(requests, head, cylinders);
    sequence, total := ScanSweeps(head, cylinders, direction, left, right);
  }

  /**
   * The sweeps of `scan` (app.py:37-62): toward cylinder 0 for "left" and
   * toward the last cylinder otherwise, stopping at that edge unless already
   * there, then back over the other half.
   */
  method ScanSweeps(head: int, cylinders: int, direction: string, left: seq<int>, right: seq<int>)
    returns (sequence: seq<int>, total: int)
    requires Split(head, cylinders, left, right)
    ensures direction == "left" ==> sequence == DownToZero(head, left) + right
    ensures direction != "left" ==> sequence == UpToEdge(head, right, cylinders - 1) + Reverse(left)
    ensures total == PathLength(head, sequence)
  {
    var current;
    if direction == "left" {
      sequence, current, total := Visit(head, [], head, 0, Reverse(left));
      assert current >= 0 by {
        ReverseEnd(head, left);
      }
      if current != 0 {
        Step(head, sequence, current, total, 0);
        total := total + current;
        current := 0;
        sequence := sequence + [current];
      }
      assert sequence == DownToZero(head, left);
      sequence, current, total := Visit(head, sequence, current, total, right);
    } else {
      sequence, current, total := Visit(head, [], head, 0, right);
      if current != cylinders - 1 {
        Step(head, sequence, current, total, cylinders - 1);
        total := total + (cylinders - 1) - current;
        current := cylinders - 1;
        sequence := sequence + [current];
      }
      assert sequence == UpToEdge(head, right, cylinders - 1);
      sequence, current, total := Visit(head, sequence, current, total, Reverse(left));
    }
  }

  /** `look` (app.py:66-91): split the requests around the head, then sweep. */
  method Look(requests: seq<int>, head: int, direction: string) returns (sequence: seq<int>, total: int)
    ensures sequence == LookOrder(requests, head, direction)
    ensures total == PathLength(head, sequence)
  {
    var left := Left(requests, head);
    var right := Right(requests, head);
    sequence, total := LookSweeps(head, direction, left, right);
  }

  /**
   * The sweeps of `look` (app.py:73-90): like SCAN's, but turning at the last
   * request instead of the edge of the disk.
   */
  method LookSweeps(head: int, direction: string, left: seq<int>, right: seq<int>)
    returns (sequence: seq<int>, total: int)
    ensures direction == "left" ==> sequence == Reverse(left) + right
    ensures direction != "left" ==> sequence == right + Reverse(left)
    ensures total == PathLength(head, sequence)
  {
    var current;
    if direction == "left" {
      sequence, current, total := Visit(head, [], head, 0, Reverse(left));
      sequence, current, total := Visit(head, sequence, current, total, right);
    } else {
      sequence, current, total := Visit(head, [], head, 0, right);
      sequence, current, total := Visit(head, sequence, current, total, Reverse(left));
    }
  }

  /** `cscan` (app.py:93-119): split the requests around the head, then sweep. */
  method CScan(requests: seq<int>, head: int, cylinders: int) returns (sequence: seq<int>, total: int)
    requires ValidInput(requests, head, cylinders)
    ensures sequence == CScanOrder(requests, head, cylinders)
    ensures total == PathLength(head, sequence)
  {
    var left := Left(requests, head);
    var right := Right(requests, head);
    ValidSplit(requests, head, cylinders);
    sequence, total := CScanSweeps(head, cylinders, left, right);
  }

  /**
   * The sweeps of `cscan` (app.py:100-117): up to the last cylinder, the jump
   * to cylinder 0 (which counts as movement), then up through the requests
   * below the head.
   */
  method CScanSweeps(head: int, cylinders: int, left: seq<int>, right: seq<int>)
    returns (sequence: seq<int>, total: int)
    requires Split(head, cylinders, left, right)
    ensures sequence == UpToEdge(head, right, cylinders - 1) + [0] + left
    ensures total == PathLength(head, sequence)
  {
    var current;
    sequence, current, total := Visit(head, [], head, 0, right);
    if current != cylinders - 1 {
      Step(head, sequence, current, total, cylinders - 1);
      total := total + (cylinders - 1) - current;
      current := cylinders - 1;
      sequence := sequence + [current];
    }
    assert sequence == UpToEdge(head, right, cylinders - 1);
    Step(head, sequence, current, total, 0);
    total := total + current;
    current := 0;
    sequence := sequence + [current];
    sequence, current, total := Visit(head, sequence, current, total, left);
  }

  /** `clook` (app.py:121-141): split the requests around the head, then sweep. */
  method CLook(requests: seq<int>, head: int) returns (sequence: seq<int>, total: int)
    ensures sequence == CLookOrder(requests, head)
    ensures total == PathLength(head, sequence)
  {
    var left := Left(requests, head);
    var right := Right(requests, head);
    sequence, total := CLookSweeps(head, left, right);
  }

  /**
   * The sweeps of `clook` (app.py:128-139): up through the requests at or
   * above the head, then to the lowest request below it and up again.
   */
  method CLookSweeps(head: int, left: seq<int>, right: seq<int>) returns (sequence: seq<int>, total: int)
    ensures sequence == right + left
    ensures total == PathLength(head, sequence)
  {
    var current;
    sequence, current, total := Visit(head, [], head, 0, right);
    if left != [] {
      Step(head, sequence, current, total, left[0]);
      total := total + Abs(current - left[0]);
      current := left[0];
      sequence := sequence + [current];
      ghost var first := sequence;
      sequence, current, total := Visit(head, sequence, current, total, left[1..]);
      assert sequence == right + left by {
        assert first == right + [left[0]];
        assert [left[0]] + left[1..] == left;
      }
    }
  }
}
