/**
 * Binary reads of a chosen file and what their completion publishes to the
 * mesh renderer.
 */
module Loading {
  import opened Wrappers

  type Bytes = seq<bv8>

  /** What a `FileReader` hands its `onload` callback: an `ArrayBuffer`, or something else. */
  datatype ReadResult = Binary(bytes: Bytes) | Other

  /** The mesh bytes after one read completes: replaced by a binary result, kept otherwise. */
  function Publish(current: Option<Bytes>, result: ReadResult): (m: Option<Bytes>)
    ensures result.Binary? ==> m == Some(result.bytes)
    ensures result.Other? ==> m == current
  {
    match result
    case Binary(b) => Some(b)
    case Other => current
  }

  /** The mesh bytes after a series of completions, in the order they complete. */
  function AfterCompletions(current: Option<Bytes>, results: seq<ReadResult>): (m: Option<Bytes>)
    ensures (forall i :: 0 <= i < |results| ==> results[i].Other?) ==> m == current
    ensures results != [] && results[|results| - 1].Binary? ==> m == Some(results[|results| - 1].bytes)
    decreases |results|
  {
    if results == [] then current
    else AfterCompletions(Publish(current, results[0]), results[1..])
  }

  /** Position `i` holds binary bytes `b` and every later result is non-binary. */
  ghost predicate LastBinaryAt(results: seq<ReadResult>, i: int, b: Bytes) {
    0 <= i < |results| && results[i] == Binary(b) &&
    forall j :: i < j < |results| ==> results[j].Other?
  }

  /** The bytes of the last binary result of a series, if there is one. */
  ghost function LastBinary(results: seq<ReadResult>): (r: Option<Bytes>)
    ensures r.None? <==> forall i :: 0 <= i < |results| ==> results[i].Other?
    ensures r.Some? ==> exists i :: LastBinaryAt(results, i, r.value)
  {
    if results == [] then None
    else
      match LastBinary(results[1..])
      case Some(b) =>
        var i :| LastBinaryAt(results[1..], i, b);
        assert LastBinaryAt(results, i + 1, b);
        Some(b)
      case None =>
        if results[0].Binary? then
          assert LastBinaryAt(results, 0, results[0].bytes);
          Some(results[0].bytes)
        else None
  }

  /**
   * The last completed binary read wins, whatever the order the reads were
   * requested in; when no completion was binary the previous bytes stay.
   */
  lemma {:induction false} LastCompletedWins(current: Option<Bytes>, results: seq<ReadResult>)
    decreases |results|
    ensures AfterCompletions(current, results) ==
      match LastBinary(results)
      case Some(b) => Some(b)
      case None => current
  {
    if results != [] {
      LastCompletedWins(Publish(current, results[0]), results[1..]);
    }
  }
}
