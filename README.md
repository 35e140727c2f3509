# Disk-head scheduling engine, modelled in Dafny

This project models the scheduling engine of a disk-head scheduling
simulator, written in Python in `app.py`. The engine has these parts:

- Six schedulers: `fcfs`, `sstf`, `scan`, `look`, `cscan` and `clook`.
  Each takes a list of cylinder requests and a starting head position. It
  returns the cylinders in the order they are serviced, and the total head
  movement.
- The comparator `find_optimal_algorithm`. It runs every scheduler on the
  same input and reports the one with the least head movement.
- The algorithm dispatch of the `/schedule` handler. It picks a scheduler by
  its name, puts the starting head position in front of the returned
  sequence, and refuses unknown names.

Each scheduler in the source is a loop. It appends the next cylinder to its
output and adds `abs(current - next)` to its total. The edge legs of SCAN and
C-SCAN are the exception: they add `current` or `(cylinders - 1) - current`
without `abs` (app.py:43, 56, 106, 110), which is the head movement only when
the head and the requests lie on the disk. The model keeps that form:

- `Schedulers` holds one method per scheduler, built on one shared loop
  (`Visit`). Each method is proved to return the order its policy defines and,
  as its total, the head movement along that order (`Paths.PathLength`).
- Those orders are functions, in `Policies` and `Sweeps`. Lemmas prove what
  each order is:
  - a permutation of the requests, plus the edge stops SCAN and C-SCAN add;
  - its sweep shape;
  - SSTF's greedy choice;
  - a closed form for the head movement of each sweeping policy.
- `Comparator` builds the results table the same way as the source, one entry
  per scheduler run, and proves the chosen name is the first minimum.
  `Dispatch` models the name-to-scheduler chain.

Modules, one file each:

- `paths.dfy` (`Paths`): head movement along a path, and the sweep-shape
  predicates.
- `partition.dfy` (`Partition`): the split into `left` (requests below the
  head, sorted) and `right` (the rest, sorted), and `reversed`.
- `sweeps.dfy` (`Sweeps`): the orders of SCAN, LOOK, C-SCAN and C-LOOK, and
  their properties.
- `policies.dfy` (`Policies`): the algorithm names, Python's `min` with a
  key, SSTF's order, and the order of each algorithm.
- `schedulers.dfy` (`Schedulers`): the six scheduler loops.
- `comparator.dfy` (`Comparator`): `find_optimal_algorithm`.
- `dispatch.dfy` (`Dispatch`): the algorithm dispatch of `/schedule`.

### Behaviour as the code has it

The model follows the code wherever it departs from the textbook forms of
these algorithms:

- **SSTF ties.** The code uses Python's `min`, which keeps the first closest
  request in the pending list (app.py:22), not the smaller cylinder. The
  model does the same (`Policies.ArgMin`).
- **SCAN edge stop.** The code appends the edge cylinder (0, or
  `cylinders - 1`) to the returned sequence whenever the head does not
  already rest on it after the first sweep (app.py:42-45, 55-58). It does
  this even when no request lies on the other side of the head.
- **C-SCAN stops.** C-SCAN appends `cylinders - 1` unless the head or a
  request is already there, and always appends 0 (app.py:105-112).
- **Edge cylinder.** The last cylinder is `cylinders - 1`, so `cylinders`
  counts the cylinders rather than naming the highest one.
- **Direction.** Only the exact string `"left"` goes down; any other string
  goes up. C-SCAN and C-LOOK take no direction and always sweep up.
- **Comparator order.** The comparator fills its table in the order FCFS,
  SSTF, SCAN, C-SCAN, C-LOOK, LOOK, and `min(results, key=results.get)`
  returns the first key with the smallest value in that order.
- **Validation.** The code validates nothing. An empty request list gives
  an empty sequence with total 0 for FCFS, SSTF, LOOK and C-LOOK. SCAN still
  goes to its edge unless the head already rests on it: `[0]` with total
  `head` toward "left", otherwise `[cylinders - 1]` with total
  `cylinders - 1 - head`. C-SCAN still goes to its last cylinder unless the
  head already rests on it, then returns 0, with the jump of
  `cylinders - 1` counted.
- **Head in the result.** The dispatch puts the starting head position in
  front of the returned sequence (app.py:192-195).

## Model

| member | source | states |
|---|---|---|
| Paths.PathLength | app.py:9-12 | the total head movement along head -> s[0] -> s[1] -> ..., the sum every scheduler accumulates |
| Paths.PathLengthAppend | app.py:9-12 | appending one stop adds the distance from where the head rests, which is the step of every scheduler loop |
| Paths.PathLengthConcat | app.py:37-62 | the movement along two legs is the first leg's plus the second's from where the first ends |
| Paths.AscendingPath | app.py:51-54 | a sweep upward costs exactly the distance from the start to where it ends |
| Paths.DescendingPath | app.py:38-41 | a sweep downward costs exactly the distance from the start to where it ends |
| Paths.UpThenDownConcat | app.py:83-90 | an ascending run at or above the head followed by a descending run below it is an up-then-down sweep |
| Paths.DownThenUpConcat | app.py:74-81 | a descending run below the head followed by an ascending run at or above it is a down-then-up sweep |
| Paths.UpThenWrapConcat | app.py:128-139 | two ascending runs, the first at or above the head and the second below it, form a circular sweep |
| Partition.Insert | app.py:34-35 | inserting into a sorted list keeps it sorted and adds exactly that element |
| Partition.Left | app.py:34 | `left` is sorted and holds only cylinders below the head |
| Partition.Right | app.py:35 | `right` is sorted and holds only cylinders at or above the head |
| Partition.SplitCounts | app.py:34-35 | `left` holds each request below the head as often as the requests do, and `right` each other request |
| Partition.PartitionIsPermutation | app.py:34-35 | together the two halves are a permutation of the requests |
| Partition.PartsAreRequests | app.py:34-35 | every element of either half is a request |
| Partition.Reverse | app.py:38 | `reversed` gives element `i` of its result from position `n - 1 - i` of its argument |
| Partition.ReverseProperties | app.py:38 | reversing keeps the elements and turns a sorted list into a descending one |
| Sweeps.ValidSplit | app.py:34-35 | on a valid disk, `left` lies in `[0, head)` and `right` in `[head, cylinders - 1]`, both sorted |
| Sweeps.EdgesInHalves | app.py:42-58 | cylinder 0 (when below the head) is in `left`, and the last cylinder in `right`, exactly when it is requested |
| Sweeps.DownToZero | app.py:38-45 | SCAN's first leg toward "left": `left` reversed, then 0 unless the head already rests there |
| Sweeps.UpToEdge | app.py:51-58 | the first leg of SCAN upward and of C-SCAN: `right`, then `cylinders - 1` unless the head already rests there |
| Sweeps.DownToZeroShape | app.py:38-45 | SCAN's downward leg is descending, ends on 0, and adds the stop 0 exactly when neither the head nor a request is on it |
| Sweeps.DownToZeroCost | app.py:38-45 | SCAN's downward leg costs exactly `head` |
| Sweeps.UpToEdgeShape | app.py:51-58 | the upward leg is ascending, ends on `cylinders - 1`, and adds that stop exactly when neither the head nor a request is on it |
| Sweeps.UpToEdgeCost | app.py:51-58 | the upward leg costs exactly `cylinders - 1 - head` |
| Sweeps.ScanOrder | app.py:37-62 | SCAN's sequence: the downward leg then `right` for "left", the upward leg then `left` reversed otherwise |
| Sweeps.ScanLeftStop | app.py:37-49 | SCAN toward "left" returns the two halves plus the stop 0, when added, right after the downward sweep |
| Sweeps.ScanLeftShape | app.py:37-49 | SCAN toward "left" sweeps down, then up |
| Sweeps.ScanLeftCost | app.py:37-49 | SCAN toward "left" costs `head` plus the highest request at or above the head |
| Sweeps.ScanRightStop | app.py:50-62 | SCAN upward returns the two halves plus the stop `cylinders - 1`, when added, right after the upward sweep |
| Sweeps.ScanRightShape | app.py:50-62 | SCAN upward sweeps up, then down |
| Sweeps.ScanRightCost | app.py:50-62 | SCAN upward costs the climb to the edge plus the descent from it to the lowest request below the head |
| Sweeps.ScanPermutation | app.py:30-64 | SCAN returns the requests plus the edge stop exactly when neither the head nor a request is on the edge, and the stop sits right after the first sweep even with nothing on the other side of the head |
| Sweeps.ScanSweep | app.py:30-64 | SCAN's sequence sweeps down then up for "left", and up then down otherwise |
| Sweeps.ScanTotal | app.py:30-64 | SCAN's head movement in closed form, for both directions |
| Sweeps.LookOrder | app.py:73-90 | LOOK's sequence: `left` reversed then `right` for "left", `right` then `left` reversed otherwise |
| Sweeps.LookLeftCost | app.py:73-81 | LOOK toward "left" costs the descent to the lowest request plus the climb to the highest |
| Sweeps.LookRightCost | app.py:82-90 | LOOK upward costs the climb to the highest request plus the descent to the lowest |
| Sweeps.LookPermutation | app.py:66-91 | LOOK services every request exactly once and adds no stop |
| Sweeps.LookSweep | app.py:66-91 | LOOK sweeps down then up for "left", and up then down otherwise |
| Sweeps.LookTotal | app.py:66-91 | LOOK's head movement in closed form, for both directions |
| Sweeps.LookNoWorseThanScan | app.py:30-91 | on a valid disk, LOOK never moves the head further than SCAN in the same direction |
| Sweeps.CScanOrder | app.py:100-117 | C-SCAN's sequence: the upward leg, 0, then `left` |
| Sweeps.UpJumpUpConcat | app.py:100-117 | an upward run ending on the edge, the jump to 0, then an ascending run below the head form the C-SCAN shape |
| Sweeps.CScanStops | app.py:100-117 | C-SCAN returns the two halves, plus 0, plus the last cylinder unless the head or a request is there |
| Sweeps.CScanShape | app.py:100-117 | C-SCAN sweeps up to the edge, jumps to 0 and sweeps up through the requests below the head |
| Sweeps.CScanCost | app.py:100-117 | C-SCAN costs the climb to the edge, the full jump back, and the climb to the highest request below the head |
| Sweeps.CScanPermutation | app.py:93-119 | C-SCAN returns the requests, plus 0 always, plus the last cylinder unless the head or a request is already there |
| Sweeps.CScanSweep | app.py:93-119 | C-SCAN's sequence has the up, jump, up shape, with the jump to 0 just before the requests below the head, even when there are none |
| Sweeps.CScanTotal | app.py:93-119 | C-SCAN's head movement in closed form, including the jump |
| Sweeps.CLookOrder | app.py:128-139 | C-LOOK's sequence: `right`, then `left` |
| Sweeps.CLookCost | app.py:128-139 | C-LOOK costs the climb to the highest request, the return to the lowest, and the climb through the rest |
| Sweeps.CLookPermutation | app.py:121-141 | C-LOOK services every request exactly once and adds no stop |
| Sweeps.CLookSweep | app.py:121-141 | C-LOOK sweeps up, wraps to the lowest request below the head, and sweeps up again |
| Sweeps.CLookTotal | app.py:121-141 | C-LOOK's head movement in closed form |
| Sweeps.CLookNoWorseThanCScan | app.py:93-141 | on a valid disk, C-LOOK never moves the head further than C-SCAN |
| Policies.Parse | app.py:177-189 | each of the six names selects its own algorithm, and no other string selects one |
| Policies.ArgMin | app.py:22 | Python's `min` with a key gives a position in the list |
| Policies.ArgMinIsFirstMinimum | app.py:22 | that position holds the smallest key, and every earlier element has a strictly larger one |
| Policies.RemoveFirst | app.py:26 | `remove` shortens the list by one |
| Policies.RemoveFirstCounts | app.py:26 | `remove` takes exactly one copy of the element out of the list |
| Policies.IndexOf | app.py:26 | the position of the first occurrence: it holds the element, and no earlier position does |
| Policies.RemoveFirstOccurrence | app.py:26 | `remove` deletes the first occurrence and keeps every other element in its order |
| Policies.Closest | app.py:22 | SSTF's pick is a pending request |
| Policies.ClosestOfAll | app.py:22 | no pending request is closer to the head than SSTF's pick, and the pick occurs at a position where every earlier request is strictly further |
| Policies.SstfOrder | app.py:21-26 | SSTF's sequence: the closest pending request, then SSTF's sequence from it over the rest with that request removed |
| Policies.SstfPermutation | app.py:19-26 | SSTF services every request exactly once |
| Policies.SstfFirstPick | app.py:21-23 | SSTF's first pick is at least as close to the start as every request |
| Policies.SstfGreedy | app.py:21-26 | the k-th cylinder SSTF services is at least as close to where the head rests as every cylinder serviced later |
| Policies.Order | app.py:177-188 | the sequence each of the six algorithms returns for one input |
| Schedulers.Step | app.py:10-12 | one loop step keeps the total equal to the head movement and the current cylinder equal to the last one visited |
| Schedulers.Visit | app.py:9-12 | the scheduler loop appends exactly its stops and keeps the total equal to the head movement |
| Schedulers.Fcfs | app.py:5-13 | FCFS returns the requests unchanged, with the head movement along them as the total |
| Schedulers.Sstf | app.py:15-28 | the SSTF loop returns SSTF's order, with the head movement along it as the total |
| Schedulers.Scan | app.py:30-64 | the SCAN loops return SCAN's order, with the head movement along it (edge stop included) as the total |
| Schedulers.ScanSweeps | app.py:37-62 | the two SCAN branches return the downward leg then `right`, or the upward leg then `left` reversed, with the head movement as the total |
| Schedulers.Look | app.py:66-91 | the LOOK loops return LOOK's order, with the head movement along it as the total |
| Schedulers.LookSweeps | app.py:73-90 | the two LOOK branches return `left` reversed then `right`, or `right` then `left` reversed, with the head movement as the total |
| Schedulers.CScan | app.py:93-119 | the C-SCAN loops return C-SCAN's order, with the head movement, jump included, as the total |
| Schedulers.CScanSweeps | app.py:100-117 | C-SCAN returns the upward leg, 0, then `left`, with the head movement as the total |
| Schedulers.CLook | app.py:121-141 | the C-LOOK loops return C-LOOK's order, with the head movement along it as the total |
| Schedulers.CLookSweeps | app.py:128-139 | C-LOOK returns `right` then `left`, with the head movement as the total, whether `left` is empty or not |
| Comparator.InsertionOrder | app.py:146-158 | the table's keys, in insertion order, are the six distinct algorithm names |
| Comparator.Min | app.py:149-158 | the two-argument `min` is one of its arguments and no larger than either |
| Comparator.TableEntries | app.py:146-158 | each algorithm's name looks up its own entry, and the table has no other key |
| Comparator.SeekTable | app.py:145-158 | the results table: each algorithm's head movement under its name, the smaller of both directions for SCAN and LOOK |
| Comparator.SeekTableCovers | app.py:146-158 | every algorithm has an entry, no run of it in any direction moves the head less, and some direction reaches it |
| Comparator.SeekTableOrdering | app.py:146-158 | on a valid disk the entry for LOOK is at most SCAN's, and the entry for C-LOOK at most C-SCAN's |
| Comparator.FirstMinimum | app.py:160 | `min(results, key=results.get)` returns a key with the smallest value, the first such key in insertion order |
| Comparator.Results | app.py:145-158 | running the schedulers one by one fills the table with each algorithm's head movement, the smaller over both directions for SCAN and LOOK |
| Comparator.FindOptimalAlgorithm | app.py:143-161 | the comparator returns the table, a name in it, and that name's value, which is no larger than any other and strictly smaller than every earlier entry's |
| Dispatch.Schedule | app.py:177-195 | an unknown name is refused with "Invalid algorithm" and status 400; otherwise the result is the head followed by the algorithm's order, and the total is the head movement along that sequence |

## Left out

- Flask setup, routes, template rendering, JSON decoding and encoding, and
  `app.run` (app.py:1-3, 163-169, 207-208). These are HTTP glue. The dispatch
  takes the algorithm name, the parsed requests and the numbers directly.
- Parsing the request string and the numbers with `int` (app.py:170-172).
  This is library behaviour, so the model starts from integers.
- The default direction `"right"` when none is given (app.py:174). It is
  part of request decoding; any direction other than `"left"` behaves the
  same anyway.
- The `compare` branch of the handler (app.py:175, 197-205). It only wraps
  the comparator's three results, which `Comparator.FindOptimalAlgorithm`
  models, into the response.
- The unused `algos` list (app.py:144). It has no effect.
- The browser script (`static/script.js`). It is user interface, network
  calls and floating point.
- Schedulers.Scan: proved only for requests and a head on the disk,
  `0 <= head < cylinders` and every request in `[0, cylinders - 1]`. The
  source checks neither. Off the disk, app.py:43 and app.py:56 add
  `current` or `(cylinders - 1) - current` even when negative, and then the
  total is no longer the head movement.
- Schedulers.CScan: the same range precondition, for the same reason
  (app.py:106).
- Comparator.FindOptimalAlgorithm: the same range precondition, since it
  runs SCAN and C-SCAN.
- Comparator.Results: the same range precondition, since it runs SCAN and
  C-SCAN.
- Dispatch.Schedule: requires the range only when the name is "SCAN" or
  "C-SCAN".
- Python's `sorted` is modelled by insertion sort. Only its result matters:
  the unique ascending arrangement of the same elements.
- The source's dictionary has an insertion order; a Dafny `map` does not.
  The order is kept beside the map, as `Comparator.InsertionOrder`.
