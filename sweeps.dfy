/**
 * The four sweeping schedulers of app.py (SCAN, LOOK, C-SCAN, C-LOOK): what
 * each returns as its sequence, and what that sequence is. Each property is
 * proved once about arbitrary halves `left`/`right` with the shape the split
 * gives them (`Split`), then stated about the requests themselves.
 */
module Sweeps {
  import opened Paths
  import opened Partition

  /**
   * The ranges the caller is expected to respect; the source checks none of
   * them. Every request and the head lie on the disk, `[0, cylinders - 1]`.
   */
  predicate ValidInput(requests: seq<int>, head: int, cylinders: int)
  {
    0 <= head < cylinders &&
    forall r :: r in requests ==> 0 <= r < cylinders
  }

  /** The shape of `left` and `right` after splitting valid requests around `head`. */
  predicate Split(head: int, cylinders: int, left: seq<int>, right: seq<int>)
  {
    0 <= head < cylinders &&
    Ascending(left) && AllBelow(left, head) && AllAtLeast(left, 0) &&
    Ascending(right) && AllAtLeast(right, head) && AllAtMost(right, cylinders - 1)
  }

  /** On a valid disk the two halves have that shape. */
  lemma ValidSplit(requests: seq<int>, head: int, cylinders: int)
    requires ValidInput(requests, head, cylinders)
    ensures Split(head, cylinders, Left(requests, head), Right(requests, head))
  {
    var left, right := Left(requests, head), Right(requests, head);
    PartsAreRequests(requests, head);
    forall i | 0 <= i < |left| ensures left[i] >= 0 {
      assert left[i] in left;
    }
    forall i | 0 <= i < |right| ensures right[i] <= cylinders - 1 {
      assert right[i] in right;
    }
  }

  /** Cylinder 0 (when below the head) and the last cylinder are in a half exactly when requested. */
  lemma EdgesInHalves(requests: seq<int>, head: int, cylinders: int)
    requires 0 <= head < cylinders
    ensures head != 0 ==> (0 in Left(requests, head) <==> 0 in requests)
    ensures cylinders - 1 in Right(requests, head) <==> cylinders - 1 in requests
  {
    var left, right := Left(requests, head), Right(requests, head);
    PartsAreRequests(requests, head);
    SplitCounts(requests, head);
    if head != 0 && 0 in requests {
      assert multiset(left)[0] == multiset(requests)[0] > 0;
    }
    if cylinders - 1 in requests {
      assert multiset(right)[cylinders - 1] == multiset(requests)[cylinders - 1] > 0;
    }
  }

  lemma ReverseEnd(start: int, s: seq<int>)
    ensures End(start, Reverse(s)) == if s == [] then start else s[0]
  {
  }

  lemma ReverseBelow(s: seq<int>, bound: int)
    requires Ascending(s) && AllBelow(s, bound)
    ensures Descending(Reverse(s)) && AllBelow(Reverse(s), bound)
    ensures s != [] ==> Reverse(s)[0] == s[|s| - 1] && Reverse(s)[|s| - 1] == s[0]
  {
    ReverseProperties(s);
  }

  // ------------------------------------------------------- the edge legs

  /**
   * The first sweep of SCAN toward "left" (app.py:38-45): the requests below
   * the head in descending order, then cylinder 0 unless the head already
   * rests there.
   */
  function DownToZero(head: int, left: seq<int>): seq<int>
  {
    var down := Reverse(left);
    down + (if End(head, down) != 0 then [0] else [])
  }

  /**
   * The first sweep of SCAN and C-SCAN toward the last cylinder `edge`
   * (app.py:51-58, 100-108): the requests at or above the head in ascending
   * order, then `edge` unless the head already rests there.
   */
  function UpToEdge(head: int, right: seq<int>, edge: int): seq<int>
  {
    right + (if End(head, right) != edge then [edge] else [])
  }

  /**
   * The downward leg ends on cylinder 0 and adds the stop 0 exactly when
   * neither the head nor a request is on it.
   */
  lemma DownToZeroShape(head: int, left: seq<int>)
    requires 0 <= head
    requires Ascending(left) && AllBelow(left, head) && AllAtLeast(left, 0)
    ensures var d := DownToZero(head, left);
      var stops := head != 0 && 0 !in left;
      Descending(d) && AllBelow(d, head) && End(head, d) == 0 &&
      multiset(d) == multiset(left) + (if stops then multiset{0} else multiset{}) &&
      |d| == |left| + (if stops then 1 else 0) &&
      (stops ==> d[|left|] == 0)
  {
    var down := Reverse(left);
    ReverseBelow(left, head);
    ReverseProperties(left);
    ReverseEnd(head, left);
    if head != 0 && 0 in left {
      var j :| 0 <= j < |left| && left[j] == 0;
      assert left[0] <= left[j];
    }
    var d := DownToZero(head, left);
    if End(head, down) != 0 {
      DescendingExtend(down, 0);
      assert d == down + [0];
    } else {
      assert d == down;
    }
  }

  /** The downward leg costs exactly `head`. */
  lemma DownToZeroCost(head: int, left: seq<int>)
    requires 0 <= head
    requires Ascending(left) && AllBelow(left, head) && AllAtLeast(left, 0)
    ensures PathLength(head, DownToZero(head, left)) == head
  {
    DownToZeroShape(head, left);
    DescendingPath(head, DownToZero(head, left));
  }

  /**
   * The upward leg ends on `edge` and adds the stop `edge` exactly when
   * neither the head nor a request is on it.
   */
  lemma UpToEdgeShape(head: int, right: seq<int>, edge: int)
    requires head <= edge
    requires Ascending(right) && AllAtLeast(right, head) && AllAtMost(right, edge)
    ensures var u := UpToEdge(head, right, edge);
      var stops := head != edge && edge !in right;
      Ascending(u) && AllAtLeast(u, head) && End(head, u) == edge &&
      multiset(u) == multiset(right) + (if stops then multiset{edge} else multiset{}) &&
      |u| == |right| + (if stops then 1 else 0) &&
      (stops ==> u[|right|] == edge)
  {
    if head != edge && edge in right {
      var j :| 0 <= j < |right| && right[j] == edge;
      assert right[j] <= right[|right| - 1];
    }
    var u := UpToEdge(head, right, edge);
    if End(head, right) != edge {
      AscendingExtend(right, edge);
      assert u == right + [edge];
    } else {
      assert u == right;
    }
  }

  /** The upward leg costs exactly `edge - head`. */
  lemma UpToEdgeCost(head: int, right: seq<int>, edge: int)
    requires head <= edge
    requires Ascending(right) && AllAtLeast(right, head) && AllAtMost(right, edge)
    ensures PathLength(head, UpToEdge(head, right, edge)) == edge - head
  {
    UpToEdgeShape(head, right, edge);
    AscendingPath(head, UpToEdge(head, right, edge));
  }

  // ---------------------------------------------------------------- SCAN

  /** What `scan` returns as its sequence (app.py:37-62). */
  function ScanOrder(requests: seq<int>, head: int, cylinders: int, direction: string): seq<int>
  {
    var left, right := Left(requests, head), Right(requests, head);
    if direction == "left" then DownToZero(head, left) + right
    else UpToEdge(head, right, cylinders - 1) + Reverse(left)
  }

  /** The far edge SCAN runs to: cylinder 0 for "left", the last cylinder otherwise. */
  function ScanEdge(cylinders: int, direction: string): int
  {
    if direction == "left" then 0 else cylinders - 1
  }

  /** SCAN adds its edge stop only when neither the head nor a request is already on the edge. */
  predicate ScanStops(requests: seq<int>, head: int, cylinders: int, direction: string)
  {
    var edge := ScanEdge(cylinders, direction);
    head != edge && edge !in requests
  }

  lemma ScanLeftStop(head: int, cylinders: int, left: seq<int>, right: seq<int>)
    requires Split(head, cylinders, left, right)
    ensures var s := DownToZero(head, left) + right;
      var stops := head != 0 && 0 !in left;
      multiset(s) == multiset(left) + multiset(right) + (if stops then multiset{0} else multiset{}) &&
      (stops ==> |left| < |s| && s[|left|] == 0)
  {
    var d := DownToZero(head, left);
    DownToZeroShape(head, left);
    if head != 0 && 0 !in left {
      assert (d + right)[|left|] == d[|left|];
    }
  }

  lemma ScanLeftShape(head: int, cylinders: int, left: seq<int>, right: seq<int>)
    requires Split(head, cylinders, left, right)
    ensures DownThenUp(head, DownToZero(head, left) + right)
  {
    DownToZeroShape(head, left);
    DownThenUpConcat(head, DownToZero(head, left), right);
  }

  lemma ScanLeftCost(head: int, cylinders: int, left: seq<int>, right: seq<int>)
    requires Split(head, cylinders, left, right)
    ensures PathLength(head, DownToZero(head, left) + right) ==
      head + (if right != [] then right[|right| - 1] else 0)
  {
    var d := DownToZero(head, left);
    assert PathLength(head, d) == head && End(head, d) == 0 by {
      DownToZeroShape(head, left);
      DownToZeroCost(head, left);
    }
    assert PathLength(0, right) == End(0, right) by {
      AscendingPath(0, right);
    }
    PathLengthConcat(head, d, right);
  }

  lemma ScanRightStop(head: int, cylinders: int, left: seq<int>, right: seq<int>)
    requires Split(head, cylinders, left, right)
    ensures var s := UpToEdge(head, right, cylinders - 1) + Reverse(left);
      var edge := cylinders - 1;
      var stops := head != edge && edge !in right;
      multiset(s) == multiset(left) + multiset(right) + (if stops then multiset{edge} else multiset{}) &&
      (stops ==> |right| < |s| && s[|right|] == edge)
  {
    var edge := cylinders - 1;
    var u := UpToEdge(head, right, edge);
    UpToEdgeShape(head, right, edge);
    ReverseProperties(left);
    if head != edge && edge !in right {
      assert (u + Reverse(left))[|right|] == u[|right|];
    }
  }

  lemma ScanRightShape(head: int, cylinders: int, left: seq<int>, right: seq<int>)
    requires Split(head, cylinders, left, right)
    ensures UpThenDown(head, UpToEdge(head, right, cylinders - 1) + Reverse(left))
  {
    UpToEdgeShape(head, right, cylinders - 1);
    ReverseBelow(left, head);
    UpThenDownConcat(head, UpToEdge(head, right, cylinders - 1), Reverse(left));
  }

  lemma ScanRightCost(head: int, cylinders: int, left: seq<int>, right: seq<int>)
    requires Split(head, cylinders, left, right)
    ensures PathLength(head, UpToEdge(head, right, cylinders - 1) + Reverse(left)) ==
      (cylinders - 1 - head) + (if left != [] then cylinders - 1 - left[0] else 0)
  {
    var edge := cylinders - 1;
    var u := UpToEdge(head, right, edge);
    var down := Reverse(left);
    assert PathLength(head, u) == edge - head && End(head, u) == edge by {
      UpToEdgeShape(head, right, edge);
      UpToEdgeCost(head, right, edge);
    }
    assert PathLength(edge, down) == if left != [] then edge - left[0] else 0 by {
      ReverseBelow(left, head);
      ReverseEnd(edge, left);
      DescendingPath(edge, down);
    }
    PathLengthConcat(head, u, down);
  }

  /**
   * SCAN's sequence is the requests plus the edge stop exactly when neither
   * the head nor a request is already on the edge; the stop comes right after
   * the first sweep, even when the far side holds no request.
   */
  lemma ScanPermutation(requests: seq<int>, head: int, cylinders: int, direction: string)
    requires ValidInput(requests, head, cylinders)
    ensures var s := ScanOrder(requests, head, cylinders, direction);
      var edge := ScanEdge(cylinders, direction);
      multiset(s) == multiset(requests) +
        (if ScanStops(requests, head, cylinders, direction) then multiset{edge} else multiset{})
    ensures var s := ScanOrder(requests, head, cylinders, direction);
      var first := if direction == "left" then |Left(requests, head)| else |Right(requests, head)|;
      ScanStops(requests, head, cylinders, direction) ==>
        first < |s| && s[first] == ScanEdge(cylinders, direction)
  {
    var left, right := Left(requests, head), Right(requests, head);
    assert Split(head, cylinders, left, right) by {
      ValidSplit(requests, head, cylinders);
    }
    assert multiset(left) + multiset(right) == multiset(requests) by {
      PartitionIsPermutation(requests, head);
    }
    assert ScanStops(requests, head, cylinders, direction) <==>
        if direction == "left" then head != 0 && 0 !in left
        else head != cylinders - 1 && cylinders - 1 !in right by {
      EdgesInHalves(requests, head, cylinders);
    }
    if direction == "left" {
      ScanLeftStop(head, cylinders, left, right);
    } else {
      ScanRightStop(head, cylinders, left, right);
    }
  }

  /**
   * SCAN toward the last cylinder sweeps up then down; toward "left" it sweeps
   * down then up. The edge stop takes its place at the end of the first sweep.
   */
  lemma ScanSweep(requests: seq<int>, head: int, cylinders: int, direction: string)
    requires ValidInput(requests, head, cylinders)
    ensures direction == "left" ==> DownThenUp(head, ScanOrder(requests, head, cylinders, direction))
    ensures direction != "left" ==> UpThenDown(head, ScanOrder(requests, head, cylinders, direction))
  {
    var left, right := Left(requests, head), Right(requests, head);
    assert Split(head, cylinders, left, right) by {
      ValidSplit(requests, head, cylinders);
    }
    if direction == "left" {
      ScanLeftShape(head, cylinders, left, right);
    } else {
      ScanRightShape(head, cylinders, left, right);
    }
  }

  /**
   * SCAN's head movement: toward the last cylinder, up to the edge and back
   * down to the lowest request below the head; toward "left", down to 0 and
   * back up to the highest request at or above the head.
   */
  lemma ScanTotal(requests: seq<int>, head: int, cylinders: int, direction: string)
    requires ValidInput(requests, head, cylinders)
    ensures var left, right := Left(requests, head), Right(requests, head);
      PathLength(head, ScanOrder(requests, head, cylinders, direction)) ==
        if direction == "left" then
          head + (if right != [] then right[|right| - 1] else 0)
        else
          (cylinders - 1 - head) + (if left != [] then cylinders - 1 - left[0] else 0)
  {
    var left, right := Left(requests, head), Right(requests, head);
    assert Split(head, cylinders, left, right) by {
      ValidSplit(requests, head, cylinders);
    }
    if direction == "left" {
      ScanLeftCost(head, cylinders, left, right);
    } else {
      ScanRightCost(head, cylinders, left, right);
    }
  }

  // ---------------------------------------------------------------- LOOK

  /** What `look` returns as its sequence (app.py:73-90). */
  function LookOrder(requests: seq<int>, head: int, direction: string): seq<int>
  {
    var left, right := Left(requests, head), Right(requests, head);
    if direction == "left" then Reverse(left) + right else right + Reverse(left)
  }

  lemma LookLeftCost(head: int, left: seq<int>, right: seq<int>)
    requires Ascending(left) && AllBelow(left, head)
    requires Ascending(right) && AllAtLeast(right, head)
    ensures var turn := if left != [] then left[0] else head;
      PathLength(head, Reverse(left) + right) ==
        (head - turn) + (if right != [] then right[|right| - 1] - turn else 0)
  {
    var down := Reverse(left);
    var turn := if left != [] then left[0] else head;
    assert PathLength(head, down) == head - turn && End(head, down) == turn by {
      ReverseBelow(left, head);
      ReverseEnd(head, left);
      DescendingPath(head, down);
    }
    assert PathLength(turn, right) == End(turn, right) - turn by {
      AscendingPath(turn, right);
    }
    PathLengthConcat(head, down, right);
  }

  lemma LookRightCost(head: int, left: seq<int>, right: seq<int>)
    requires Ascending(left) && AllBelow(left, head)
    requires Ascending(right) && AllAtLeast(right, head)
    ensures var turn := if right != [] then right[|right| - 1] else head;
      PathLength(head, right + Reverse(left)) == (turn - head) + (if left != [] then turn - left[0] else 0)
  {
    var down := Reverse(left);
    var turn := End(head, right);
    assert PathLength(head, right) == turn - head by {
      AscendingPath(head, right);
    }
    assert PathLength(turn, down) == if left != [] then turn - left[0] else 0 by {
      ReverseBelow(left, head);
      ReverseEnd(turn, left);
      DescendingPath(turn, down);
    }
    PathLengthConcat(head, right, down);
  }

  /** LOOK services every request exactly once and adds no stop. */
  lemma LookPermutation(requests: seq<int>, head: int, direction: string)
    ensures multiset(LookOrder(requests, head, direction)) == multiset(requests)
  {
    PartitionIsPermutation(requests, head);
    ReverseProperties(Left(requests, head));
  }

  /** LOOK sweeps up then down, or down then up for "left". */
  lemma LookSweep(requests: seq<int>, head: int, direction: string)
    ensures direction == "left" ==> DownThenUp(head, LookOrder(requests, head, direction))
    ensures direction != "left" ==> UpThenDown(head, LookOrder(requests, head, direction))
  {
    var left, right := Left(requests, head), Right(requests, head);
    ReverseBelow(left, head);
    if direction == "left" {
      DownThenUpConcat(head, Reverse(left), right);
    } else {
      UpThenDownConcat(head, right, Reverse(left));
    }
  }

  /**
   * LOOK's head movement: out to the furthest request in the first direction
   * (or nowhere), then back to the furthest request on the other side.
   */
  lemma LookTotal(requests: seq<int>, head: int, direction: string)
    ensures var left, right := Left(requests, head), Right(requests, head);
      PathLength(head, LookOrder(requests, head, direction)) ==
        if direction == "left" then
          var turn := if left != [] then left[0] else head;
          (head - turn) + (if right != [] then right[|right| - 1] - turn else 0)
        else
          var turn := if right != [] then right[|right| - 1] else head;
          (turn - head) + (if left != [] then turn - left[0] else 0)
  {
    var left, right := Left(requests, head), Right(requests, head);
    if direction == "left" {
      LookLeftCost(head, left, right);
    } else {
      LookRightCost(head, left, right);
    }
  }

  /** LOOK never moves the head further than SCAN in the same direction. */
  lemma LookNoWorseThanScan(requests: seq<int>, head: int, cylinders: int, direction: string)
    requires ValidInput(requests, head, cylinders)
    ensures PathLength(head, LookOrder(requests, head, direction)) <=
            PathLength(head, ScanOrder(requests, head, cylinders, direction))
  {
    LookTotal(requests, head, direction);
    ScanTotal(requests, head, cylinders, direction);
    assert Split(head, cylinders, Left(requests, head), Right(requests, head)) by {
      ValidSplit(requests, head, cylinders);
    }
  }

  // -------------------------------------------------------------- C-SCAN

  /** What `cscan` returns as its sequence (app.py:100-117); direction plays no part. */
  function CScanOrder(requests: seq<int>, head: int, cylinders: int): seq<int>
  {
    var left, right := Left(requests, head), Right(requests, head);
    UpToEdge(head, right, cylinders - 1) + [0] + left
  }

  /**
   * The C-SCAN shape with the jump to cylinder 0 at position `k`: before it,
   * an ascending sweep at or above the head that ends on the last cylinder
   * `edge` (unless the head started there with nothing above it); after it,
   * an ascending sweep below the head.
   */
  ghost predicate UpJumpUp(head: int, edge: int, s: seq<int>, k: int)
  {
    0 <= k < |s| && s[k] == 0 &&
    (k > 0 ==> s[k - 1] == edge) &&
    (k == 0 ==> head == edge) &&
    (forall i :: 0 <= i < k ==> s[i] >= head) &&
    (forall i, j :: 0 <= i < j < k ==> s[i] <= s[j]) &&
    (forall i :: k < i < |s| ==> s[i] < head) &&
    (forall i, j :: k < i < j < |s| ==> s[i] <= s[j])
  }

  lemma UpJumpUpConcat(head: int, edge: int, u: seq<int>, b: seq<int>)
    requires Ascending(u) && AllAtLeast(u, head)
    requires u != [] ==> u[|u| - 1] == edge
    requires u == [] ==> head == edge
    requires Ascending(b) && AllBelow(b, head)
    ensures UpJumpUp(head, edge, u + [0] + b, |u|)
  {
    var s := u + [0] + b;
    var k := |u|;
    forall i | k < i < |s| ensures s[i] == b[i - k - 1] {
    }
    forall i, j | k < i < j < |s| ensures s[i] <= s[j] {
      assert s[i] == b[i - k - 1] && s[j] == b[j - k - 1];
    }
  }

  lemma CScanStops(head: int, cylinders: int, left: seq<int>, right: seq<int>)
    requires Split(head, cylinders, left, right)
    ensures var s := UpToEdge(head, right, cylinders - 1) + [0] + left;
      var edge := cylinders - 1;
      var stops := head != edge && edge !in right;
      multiset(s) == multiset(left) + multiset(right) + multiset{0} +
        (if stops then multiset{edge} else multiset{})
  {
    UpToEdgeShape(head, right, cylinders - 1);
  }

  lemma CScanShape(head: int, cylinders: int, left: seq<int>, right: seq<int>)
    requires Split(head, cylinders, left, right)
    ensures var u := UpToEdge(head, right, cylinders - 1);
      UpJumpUp(head, cylinders - 1, u + [0] + left, |u|)
  {
    var edge := cylinders - 1;
    var u := UpToEdge(head, right, edge);
    UpToEdgeShape(head, right, edge);
    UpJumpUpConcat(head, edge, u, left);
  }

  lemma CScanCost(head: int, cylinders: int, left: seq<int>, right: seq<int>)
    requires Split(head, cylinders, left, right)
    ensures PathLength(head, UpToEdge(head, right, cylinders - 1) + [0] + left) ==
      (cylinders - 1 - head) + (cylinders - 1) + (if left != [] then left[|left| - 1] else 0)
  {
    var edge := cylinders - 1;
    var u := UpToEdge(head, right, edge);
    assert PathLength(head, u + [0]) == (edge - head) + edge by {
      UpToEdgeShape(head, right, edge);
      UpToEdgeCost(head, right, edge);
      PathLengthAppend(head, u, 0);
    }
    assert PathLength(0, left) == End(0, left) by {
      AscendingPath(0, left);
    }
    PathLengthConcat(head, u + [0], left);
  }

  /**
   * C-SCAN's sequence is the requests, plus the last cylinder unless the head
   * or a request is already there, plus cylinder 0 always.
   */
  lemma CScanPermutation(requests: seq<int>, head: int, cylinders: int)
    requires ValidInput(requests, head, cylinders)
    ensures multiset(CScanOrder(requests, head, cylinders)) ==
      multiset(requests) + multiset{0} +
      (if head != cylinders - 1 && cylinders - 1 !in requests then multiset{cylinders - 1} else multiset{})
  {
    var left, right := Left(requests, head), Right(requests, head);
    assert Split(head, cylinders, left, right) by {
      ValidSplit(requests, head, cylinders);
    }
    assert multiset(left) + multiset(right) == multiset(requests) by {
      PartitionIsPermutation(requests, head);
    }
    assert cylinders - 1 in right <==> cylinders - 1 in requests by {
      EdgesInHalves(requests, head, cylinders);
    }
    CScanStops(head, cylinders, left, right);
  }

  /**
   * C-SCAN's shape: an ascending sweep at or above the head that ends on the
   * last cylinder (unless the head started there with nothing above it), the
   * jump to cylinder 0, then an ascending sweep below the head.
   */
  lemma CScanSweep(requests: seq<int>, head: int, cylinders: int)
    requires ValidInput(requests, head, cylinders)
    ensures var s := CScanOrder(requests, head, cylinders);
      UpJumpUp(head, cylinders - 1, s, |s| - 1 - |Left(requests, head)|)
  {
    var left, right := Left(requests, head), Right(requests, head);
    var u := UpToEdge(head, right, cylinders - 1);
    assert Split(head, cylinders, left, right) by {
      ValidSplit(requests, head, cylinders);
    }
    assert UpJumpUp(head, cylinders - 1, u + [0] + left, |u|) by {
      CScanShape(head, cylinders, left, right);
    }
  }

  /** C-SCAN's head movement: up to the edge, the full jump back, then up to the highest request below the head. */
  lemma CScanTotal(requests: seq<int>, head: int, cylinders: int)
    requires ValidInput(requests, head, cylinders)
    ensures var left := Left(requests, head);
      PathLength(head, CScanOrder(requests, head, cylinders)) ==
        (cylinders - 1 - head) + (cylinders - 1) + (if left != [] then left[|left| - 1] else 0)
  {
    var left, right := Left(requests, head), Right(requests, head);
    assert Split(head, cylinders, left, right) by {
      ValidSplit(requests, head, cylinders);
    }
    CScanCost(head, cylinders, left, right);
  }

  // -------------------------------------------------------------- C-LOOK

  /** What `clook` returns as its sequence (app.py:128-139); direction plays no part. */
  function CLookOrder(requests: seq<int>, head: int): seq<int>
  {
    Right(requests, head) + Left(requests, head)
  }

  lemma CLookCost(head: int, left: seq<int>, right: seq<int>)
    requires Ascending(left) && AllBelow(left, head)
    requires Ascending(right) && AllAtLeast(right, head)
    ensures var turn := if right != [] then right[|right| - 1] else head;
      PathLength(head, right + left) ==
        (turn - head) + (if left != [] then (turn - left[0]) + (left[|left| - 1] - left[0]) else 0)
  {
    var turn := End(head, right);
    assert PathLength(head, right) == turn - head by {
      AscendingPath(head, right);
    }
    assert PathLength(turn, left) == if left != [] then (turn - left[0]) + (left[|left| - 1] - left[0]) else 0 by {
      if left != [] {
        AscendingPath(left[0], left);
        assert PathLength(turn, left) == (turn - left[0]) + PathLength(left[0], left[1..]);
        assert PathLength(left[0], left) == PathLength(left[0], left[1..]);
      }
    }
    PathLengthConcat(head, right, left);
  }

  /** C-LOOK services every request exactly once and adds no stop. */
  lemma CLookPermutation(requests: seq<int>, head: int)
    ensures multiset(CLookOrder(requests, head)) == multiset(requests)
  {
    PartitionIsPermutation(requests, head);
  }

  /** C-LOOK sweeps up, then wraps to the lowest request below the head and sweeps up again. */
  lemma CLookSweep(requests: seq<int>, head: int)
    ensures UpThenWrap(head, CLookOrder(requests, head))
  {
    UpThenWrapConcat(head, Right(requests, head), Left(requests, head));
  }

  /** C-LOOK's head movement: up to the highest request, back to the lowest, up to the highest below the head. */
  lemma CLookTotal(requests: seq<int>, head: int)
    ensures var left, right := Left(requests, head), Right(requests, head);
      var turn := if right != [] then right[|right| - 1] else head;
      PathLength(head, CLookOrder(requests, head)) ==
        (turn - head) + (if left != [] then (turn - left[0]) + (left[|left| - 1] - left[0]) else 0)
  {
    CLookCost(head, Left(requests, head), Right(requests, head));
  }

  /** C-LOOK never moves the head further than C-SCAN. */
  lemma CLookNoWorseThanCScan(requests: seq<int>, head: int, cylinders: int)
    requires ValidInput(requests, head, cylinders)
    ensures PathLength(head, CLookOrder(requests, head)) <= PathLength(head, CScanOrder(requests, head, cylinders))
  {
    CLookTotal(requests, head);
    CScanTotal(requests, head, cylinders);
    assert Split(head, cylinders, Left(requests, head), Right(requests, head)) by {
      ValidSplit(requests, head, cylinders);
    }
  }
}
