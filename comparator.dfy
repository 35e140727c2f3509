/**
 * `find_optimal_algorithm` (app.py:143-161): run every scheduler on the same
 * input, record each one's total head movement under its name, and pick the
 * name with the smallest total. SCAN and LOOK are run in both directions and
 * recorded with the smaller of the two totals.
 */
module Comparator {
  import opened Paths
  import opened Sweeps
  import opened Policies
  import Schedulers

  /** The order in which the comparator inserts its entries (app.py:146-158). */
  function InsertionOrder(): (names: seq<string>)
    ensures |names| == 6
    ensures forall a :: Name(a) in names
    ensures forall i, j :: 0 <= i < j < |names| ==> names[i] != names[j]
  {
    [Name(Fcfs), Name(Sstf), Name(Scan), Name(CScan), Name(CLook), Name(Look)]
  }

  /** Python's two-argument `min`. */
  function Min(a: int, b: int): (m: int)
    ensures m <= a && m <= b
    ensures m == a || m == b
  {
    if b < a then b else a
  }

  /** The head movement of algorithm `a` run in `direction`. */
  function Seek(a: Algorithm, requests: seq<int>, head: int, cylinders: int, direction: string): nat
  {
    PathLength(head, Order(a, requests, head, cylinders, direction))
  }

  /** A table with one entry per algorithm, keyed by its name. */
  function Table(fcfs: int, sstf: int, scan: int, cscan: int, clook: int, look: int): map<string, int>
  {
    map[Name(Fcfs) := fcfs, Name(Sstf) := sstf, Name(Scan) := scan,
        Name(CScan) := cscan, Name(CLook) := clook, Name(Look) := look]
  }

  /** Each algorithm's name looks up its own entry, and there is no other key. */
  lemma TableEntries(fcfs: int, sstf: int, scan: int, cscan: int, clook: int, look: int)
    ensures var t := Table(fcfs, sstf, scan, cscan, clook, look);
      t[Name(Fcfs)] == fcfs && t[Name(Sstf)] == sstf && t[Name(Scan)] == scan &&
      t[Name(CScan)] == cscan && t[Name(CLook)] == clook && t[Name(Look)] == look
    ensures forall name :: name in Table(fcfs, sstf, scan, cscan, clook, look) <==> name in InsertionOrder()
  {
  }

  /** The `results` table the comparator builds (app.py:145-158). */
  function SeekTable(requests: seq<int>, head: int, cylinders: int): map<string, int>
  {
    Table(
      Seek(Fcfs, requests, head, cylinders, "right"),
      Seek(Sstf, requests, head, cylinders, "right"),
      Min(Seek(Scan, requests, head, cylinders, "left"), Seek(Scan, requests, head, cylinders, "right")),
      Seek(CScan, requests, head, cylinders, "right"),
      Seek(CLook, requests, head, cylinders, "right"),
      Min(Seek(Look, requests, head, cylinders, "left"), Seek(Look, requests, head, cylinders, "right")))
  }

  /**
   * The table has an entry for every algorithm and no other; no run of that
   * algorithm, in any direction, moves the head less than its entry, and
   * some direction attains it.
   */
  lemma SeekTableCovers(requests: seq<int>, head: int, cylinders: int, a: Algorithm, direction: string)
    ensures forall name :: name in SeekTable(requests, head, cylinders) <==> name in InsertionOrder()
    ensures SeekTable(requests, head, cylinders)[Name(a)] <= Seek(a, requests, head, cylinders, direction)
    ensures SeekTable(requests, head, cylinders)[Name(a)] == Seek(a, requests, head, cylinders, "left") ||
            SeekTable(requests, head, cylinders)[Name(a)] == Seek(a, requests, head, cylinders, "right")
  {
    var left := Seek(a, requests, head, cylinders, "left");
    var right := Seek(a, requests, head, cylinders, "right");
    assert Seek(a, requests, head, cylinders, direction) == if direction == "left" then left else right;
    assert a !in {Scan, Look} ==> left == right;
    TableEntries(
      Seek(Fcfs, requests, head, cylinders, "right"),
      Seek(Sstf, requests, head, cylinders, "right"),
      Min(Seek(Scan, requests, head, cylinders, "left"), Seek(Scan, requests, head, cylinders, "right")),
      Seek(CScan, requests, head, cylinders, "right"),
      Seek(CLook, requests, head, cylinders, "right"),
      Min(Seek(Look, requests, head, cylinders, "left"), Seek(Look, requests, head, cylinders, "right")));
  }

  /**
   * On a valid disk the table never records LOOK above SCAN, nor C-LOOK
   * above C-SCAN.
   */
  lemma SeekTableOrdering(requests: seq<int>, head: int, cylinders: int)
    requires ValidInput(requests, head, cylinders)
    ensures var table := SeekTable(requests, head, cylinders);
      table[Name(Look)] <= table[Name(Scan)] && table[Name(CLook)] <= table[Name(CScan)]
  {
    var scanLeft, scanRight := Seek(Scan, requests, head, cylinders, "left"), Seek(Scan, requests, head, cylinders, "right");
    var lookLeft, lookRight := Seek(Look, requests, head, cylinders, "left"), Seek(Look, requests, head, cylinders, "right");
    var cscan, clook := Seek(CScan, requests, head, cylinders, "right"), Seek(CLook, requests, head, cylinders, "right");
    assert lookLeft <= scanLeft by {
      LookNoWorseThanScan(requests, head, cylinders, "left");
    }
    assert lookRight <= scanRight by {
      LookNoWorseThanScan(requests, head, cylinders, "right");
    }
    assert clook <= cscan by {
      CLookNoWorseThanCScan(requests, head, cylinders);
    }
    TableEntries(Seek(Fcfs, requests, head, cylinders, "right"), Seek(Sstf, requests, head, cylinders, "right"),
      Min(scanLeft, scanRight), cscan, clook, Min(lookLeft, lookRight));
  }

  /**
   * `min(results, key=results.get)` over the keys in insertion order `names`:
   * a key with the smallest value, the first such one.
   */
  function FirstMinimum(names: seq<string>, results: map<string, int>): (name: string)
    requires names != []
    requires forall n :: n in names ==> n in results
    requires forall i, j :: 0 <= i < j < |names| ==> names[i] != names[j]
    ensures name in names
    ensures forall n :: n in names ==> results[name] <= results[n]
    ensures forall i :: 0 <= i < |names| && names[i] == name ==>
      forall j :: 0 <= j < i ==> results[names[j]] > results[name]
  {
    var key := (n: string) => if n in results then results[n] else 0;
    ArgMinIsFirstMinimum(names, key);
    var best := ArgMin(names, key);
    assert forall j :: 0 <= j < |names| ==> key(names[j]) == results[names[j]];
    assert forall i :: 0 <= i < |names| && names[i] == names[best] ==> i == best;
    names[best]
  }

  /** The entries of the comparator's table (app.py:145-158), one scheduler run at a time. */
  method Results(requests: seq<int>, head: int, cylinders: int) returns (results: map<string, int>)
    requires ValidInput(requests, head, cylinders)
    ensures results == SeekTable(requests, head, cylinders)
    ensures forall name :: name in results <==> name in InsertionOrder()
  {
    var sequence, fcfs, sstf, scanLeft, scanRight, cscan, clook, lookLeft, lookRight;
    results := map[];
    sequence, fcfs := Schedulers.Fcfs(requests, head);
    assert fcfs == Seek(Fcfs, requests, head, cylinders, "right");
    results := results[Name(Fcfs) := fcfs];
    sequence, sstf := Schedulers.Sstf(requests, head);
    assert sstf == Seek(Sstf, requests, head, cylinders, "right");
    results := results[Name(Sstf) := sstf];
    sequence, scanLeft := Schedulers.Scan(requests, head, cylinders, "left");
    assert scanLeft == Seek(Scan, requests, head, cylinders, "left");
    sequence, scanRight := Schedulers.Scan(requests, head, cylinders, "right");
    assert scanRight == Seek(Scan, requests, head, cylinders, "right");
    results := results[Name(Scan) := Min(scanLeft, scanRight)];
    sequence, cscan := Schedulers.CScan(requests, head, cylinders);
    assert cscan == Seek(CScan, requests, head, cylinders, "right");
    results := results[Name(CScan) := cscan];
    sequence, clook := Schedulers.CLook(requests, head);
    assert clook == Seek(CLook, requests, head, cylinders, "right");
    results := results[Name(CLook) := clook];
    sequence, lookLeft := Schedulers.Look(requests, head, "left");
    assert lookLeft == Seek(Look, requests, head, cylinders, "left");
    sequence, lookRight := Schedulers.Look(requests, head, "right");
    assert lookRight == Seek(Look, requests, head, cylinders, "right");
    results := results[Name(Look) := Min(lookLeft, lookRight)];
    assert results == Table(fcfs, sstf, Min(scanLeft, scanRight), cscan, clook, Min(lookLeft, lookRight));
    TableEntries(fcfs, sstf, Min(scanLeft, scanRight), cscan, clook, Min(lookLeft, lookRight));
  }

  /**
   * `find_optimal_algorithm`: the table, and the first name in insertion
   * order whose total is the smallest.
   */
  method FindOptimalAlgorithm(requests: seq<int>, head: int, cylinders: int)
    returns (optimal: string, seekTime: int, results: map<string, int>)
    requires ValidInput(requests, head, cylinders)
    ensures results == SeekTable(requests, head, cylinders)
    ensures optimal in results && seekTime == results[optimal]
    ensures forall name :: name in results ==> seekTime <= results[name]
    ensures forall i :: 0 <= i < |InsertionOrder()| && InsertionOrder()[i] == optimal ==>
      forall j :: 0 <= j < i ==> results[InsertionOrder()[j]] > seekTime
  {
    results := Results(requests, head, cylinders);
    var names := InsertionOrder();
    optimal := FirstMinimum(names, results);
    seekTime := results[optimal];
  }
}
