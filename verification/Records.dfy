/** Log records, the checkpointed state of one log, and the chunking helper that the ETL
    reader and the syslog consumer both carry a copy of. */
module Records {
  import opened Sequences

  /** An event log record; timestamp is its UnixNano value. */
  datatype Record = Record(timestamp: int, recordId: nat, content: string)

  /** The hex MD5 of a record. The constructor is injective, which is the only thing the
      readers rely on, and the empty string is the digest of no record. */
  datatype Digest = NoDigest | Md5Of(record: Record)

  /** checkpoint.EventLogState */
  datatype EventLogState = EventLogState(
    name: string, recordNumber: nat, timestamp: int, md5: Digest, bookmark: string)

  /** readChunk: up to size records from start on, and where they end. */
  function ReadChunk(arr: seq<Record>, size: nat, start: nat): (r: (seq<Record>, nat))
    requires start <= |arr|
    ensures start <= r.1 <= |arr| && r.0 == arr[start..r.1]
    ensures |r.0| <= size && (|r.0| < size ==> r.1 == |arr|)
  {
    var end := if start + size > |arr| then |arr| else start + size;
    (arr[start..end], end)
  }

  /** The chunks of arr from start on, in order. */
  function ChunksFrom(arr: seq<Record>, size: nat, start: nat): seq<seq<Record>>
    requires size >= 1 && start <= |arr|
    decreases |arr| - start
  {
    if start == |arr| then []
    else
      var (chunk, end) := ReadChunk(arr, size, start);
      [chunk] + ChunksFrom(arr, size, end)
  }

  function Chunks(arr: seq<Record>, size: nat): seq<seq<Record>>
    requires size >= 1
  {
    ChunksFrom(arr, size, 0)
  }

  /** Chunking loses nothing, reorders nothing, and every chunk holds 1 to size records. */
  lemma {:induction false} ChunksPartition(arr: seq<Record>, size: nat, start: nat)
    requires size >= 1 && start <= |arr|
    ensures Flatten(ChunksFrom(arr, size, start)) == arr[start..]
    ensures forall c :: c in ChunksFrom(arr, size, start) ==> 1 <= |c| <= size
    ensures start < |arr| ==> ChunksFrom(arr, size, start) != []
                              && Last(Last(ChunksFrom(arr, size, start))) == Last(arr)
    decreases |arr| - start
  {
    if start < |arr| {
      var (chunk, end) := ReadChunk(arr, size, start);
      ChunksPartition(arr, size, end);
      assert arr[start..] == chunk + arr[end..];
    }
  }

  ghost predicate Ascending(log: seq<Record>) {
    forall i, j :: 0 <= i < j < |log| ==> log[i].timestamp < log[j].timestamp
  }

  ghost predicate NonDecreasing(log: seq<Record>) {
    forall i, j :: 0 <= i < j < |log| ==> log[i].timestamp <= log[j].timestamp
  }
}
