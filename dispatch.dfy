/**
 * The algorithm dispatch of the `/schedule` handler (app.py:177-195): the
 * algorithm is chosen by its exact name, its sequence is returned with the
 * starting head position in front, and any other name is refused.
 */
module Dispatch {
  import opened Paths
  import opened Sweeps
  import opened Policies
  import Schedulers

  /** The handler's answer: the result object, or the error object with its status code. */
  datatype Response =
    | Scheduled(sequence: seq<int>, totalSeek: int)
    | Rejected(error: string, status: int)

  /**
   * Runs the algorithm named `algorithm`. SCAN and C-SCAN need the head and
   * the requests on the disk for their totals to be the head movement.
   */
  method Schedule(algorithm: string, requests: seq<int>, head: int, cylinders: int, direction: string)
    returns (response: Response)
    requires algorithm == "SCAN" || algorithm == "C-SCAN" ==> ValidInput(requests, head, cylinders)
    ensures response.Rejected? <==> Parse(algorithm) == None
    ensures response.Rejected? ==> response.error == "Invalid algorithm" && response.status == 400
    ensures Parse(algorithm).Some? ==>
      response.Scheduled? && response.sequence == [head] + Order(Parse(algorithm).value, requests, head, cylinders, direction)
    ensures response.Scheduled? ==>
      response.sequence != [] && response.sequence[0] == head &&
      response.totalSeek == PathLength(response.sequence[0], response.sequence[1..])
  {
    var sequence, total;
    if algorithm == "FCFS" {
      sequence, total := Schedulers.Fcfs(requests, head);
    } else if algorithm == "SSTF" {
      sequence, total := Schedulers.Sstf(requests, head);
    } else if algorithm == "SCAN" {
      sequence, total := Schedulers.Scan(requests, head, cylinders, direction);
    } else if algorithm == "C-SCAN" {
      sequence, total := Schedulers.CScan(requests, head, cylinders);
    } else if algorithm == "C-LOOK" {
      sequence, total := Schedulers.CLook(requests, head);
    } else if algorithm == "LOOK" {
      sequence, total := Schedulers.Look(requests, head, direction);
    } else {
      return Rejected("Invalid algorithm", 400);
    }
    assert sequence == Order(Parse(algorithm).value, requests, head, cylinders, direction);
    response := Scheduled([head] + sequence, total);
    assert response.sequence[1..] == sequence;
  }
}
