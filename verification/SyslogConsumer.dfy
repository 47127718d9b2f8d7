/** The syslog consumer: sends a batch in chunks of 100, each guarded by a cutoff that moves to
    the end of the chunk before it. */
module SyslogConsumer {
  import opened Sequences
  import opened Records

  const CHUNK := 100

  /** The records of a chunk that a sender task does not turn away. */
  function Newer(cutoff: int, records: seq<Record>): seq<Record> {
    if records == [] then []
    else (if cutoff < records[0].timestamp then [records[0]] else []) + Newer(cutoff, records[1..])
  }

  lemma {:induction false} NewerConcat(cutoff: int, a: seq<Record>, b: seq<Record>)
    ensures Newer(cutoff, a + b) == Newer(cutoff, a) + Newer(cutoff, b)
  {
    if a == [] {
      assert a + b == b;
    } else {
      assert (a + b)[1..] == a[1..] + b;
      NewerConcat(cutoff, a[1..], b);
    }
  }

  // ----- when HandleEvents returns

  /** One iteration of the chunk loop: position and cutoff. A chunk whose last record is not
      newer than the cutoff is neither sent nor skipped. */
  function Iterate(events: seq<Record>, start: nat, cutoff: int): (nat, int)
    requires start <= |events|
  {
    if start == |events| then (start, cutoff)
    else
      var (records, end) := ReadChunk(events, CHUNK, start);
      if cutoff >= Last(records).timestamp then (start, cutoff) else (end, Last(records).timestamp)
  }

  /** Position and cutoff after n iterations. */
  function IterateN(events: seq<Record>, start: nat, cutoff: int, n: nat): (r: (nat, int))
    requires start <= |events|
    ensures start <= r.0 <= |events|
    decreases n
  {
    if n == 0 then (start, cutoff)
    else
      var (next, c) := Iterate(events, start, cutoff);
      IterateN(events, next, c, n - 1)
  }

  ghost predicate Returns(events: seq<Record>, start: nat, cutoff: int)
    requires start <= |events|
  {
    exists n: nat :: IterateN(events, start, cutoff, n).0 == |events|
  }

  /** Every chunk ends above the cutoff the one before it left. */
  predicate ChunkEndsRise(events: seq<Record>, start: nat, cutoff: int)
    requires start <= |events|
    decreases |events| - start
  {
    start == |events|
    || var (records, end) := ReadChunk(events, CHUNK, start);
       cutoff < Last(records).timestamp && ChunkEndsRise(events, end, Last(records).timestamp)
  }

  lemma {:induction false} StuckStays(events: seq<Record>, start: nat, cutoff: int, n: nat)
    requires start <= |events| && Iterate(events, start, cutoff) == (start, cutoff)
    ensures IterateN(events, start, cutoff, n) == (start, cutoff)
    decreases n
  {
    if n > 0 {
      StuckStays(events, start, cutoff, n - 1);
    }
  }

  /** Past the end nothing changes. */
  lemma {:induction false} NothingLeft(events: seq<Record>, cutoff: int, n: nat)
    ensures IterateN(events, |events|, cutoff, n) == (|events|, cutoff)
    decreases n
  {
    if n > 0 {
      NothingLeft(events, cutoff, n - 1);
    }
  }

  /** A batch whose chunk ends rise is done after at most as many iterations as it has records,
      and the cutoff is then its last record's. */
  lemma {:induction false} RisingEndsReturn(events: seq<Record>, start: nat, cutoff: int, n: nat)
    requires start <= |events| && ChunkEndsRise(events, start, cutoff) && n >= |events| - start
    ensures IterateN(events, start, cutoff, n)
            == (|events|, if start == |events| then cutoff else Last(events).timestamp)
    decreases |events| - start
  {
    if start == |events| {
      NothingLeft(events, cutoff, n);
    } else {
      var (records, end) := ReadChunk(events, CHUNK, start);
      RisingEndsReturn(events, end, Last(records).timestamp, n - 1);
    }
  }

  lemma {:induction false} ReturningEndsRise(events: seq<Record>, start: nat, cutoff: int, n: nat)
    requires start <= |events| && IterateN(events, start, cutoff, n).0 == |events|
    ensures ChunkEndsRise(events, start, cutoff)
    decreases n
  {
    if start < |events| {
      var (next, c) := Iterate(events, start, cutoff);
      if next == start {
        StuckStays(events, start, cutoff, n);
      } else {
        ReturningEndsRise(events, next, c, n - 1);
      }
    }
  }

  /** HandleEvents returns exactly on batches whose chunk ends rise above its cutoff. */
  lemma ReturnsIffChunkEndsRise(events: seq<Record>, cutoff: int)
    ensures Returns(events, 0, cutoff) <==> ChunkEndsRise(events, 0, cutoff)
  {
    if ChunkEndsRise(events, 0, cutoff) {
      RisingEndsReturn(events, 0, cutoff, |events|);
    }
    if Returns(events, 0, cutoff) {
      var n: nat :| IterateN(events, 0, cutoff, n).0 == |events|;
      ReturningEndsRise(events, 0, cutoff, n);
    }
  }

  lemma {:induction false} AscendingEndsRise(events: seq<Record>, start: nat)
    requires Ascending(events) && 0 < start <= |events|
    ensures ChunkEndsRise(events, start, events[start - 1].timestamp)
    decreases |events| - start
  {
    if start < |events| {
      var (records, end) := ReadChunk(events, CHUNK, start);
      assert Last(records) == events[end - 1];
      AscendingEndsRise(events, end);
    }
  }

  /** For a batch in strict time order, only the first chunk's end has to be newer. */
  lemma OrderedBatchReturns(events: seq<Record>, cutoff: int)
    requires Ascending(events)
    ensures Returns(events, 0, cutoff)
            <==> events == [] || cutoff < events[(if |events| < CHUNK then |events| else CHUNK) - 1].timestamp
  {
    ReturnsIffChunkEndsRise(events, cutoff);
    if events != [] {
      var (records, end) := ReadChunk(events, CHUNK, 0);
      assert Last(records) == events[end - 1];
      if cutoff < Last(records).timestamp {
        AscendingEndsRise(events, end);
      }
    }
  }

  // ----- what it sends

  /** Cutoff on entry to each chunk, and its records. */
  datatype Guarded = Guarded(cutoff: int, records: seq<Record>)

  function GuardedChunks(events: seq<Record>, start: nat, cutoff: int): seq<Guarded>
    requires start <= |events|
    decreases |events| - start
  {
    if start == |events| then []
    else
      var (records, end) := ReadChunk(events, CHUNK, start);
      [Guarded(cutoff, records)] + GuardedChunks(events, end, Last(records).timestamp)
  }

  function RecordsOf(chunks: seq<Guarded>): (r: seq<seq<Record>>)
    ensures |r| == |chunks| && forall i :: 0 <= i < |chunks| ==> r[i] == chunks[i].records
  {
    seq(|chunks|, i requires 0 <= i < |chunks| => chunks[i].records)
  }

  /** The chunks make up the batch, and their cutoffs strictly rise when HandleEvents returns. */
  lemma {:induction false} GuardedChunksOf(events: seq<Record>, start: nat, cutoff: int)
    requires start <= |events|
    ensures var chunks := GuardedChunks(events, start, cutoff);
            RecordsOf(chunks) == ChunksFrom(events, CHUNK, start)
            && (forall i :: 0 <= i < |chunks| ==> 1 <= |chunks[i].records| <= 100)
            && (forall i :: 0 <= i < |chunks| - 1 ==> |chunks[i].records| == 100)
            && (ChunkEndsRise(events, start, cutoff) ==>
                  (forall i :: 0 <= i < |chunks| ==> cutoff <= chunks[i].cutoff)
                  && forall i, j :: 0 <= i < j < |chunks| ==> chunks[i].cutoff < chunks[j].cutoff)
    decreases |events| - start
  {
    if start < |events| {
      var (records, end) := ReadChunk(events, CHUNK, start);
      GuardedChunksOf(events, end, Last(records).timestamp);
      assert GuardedChunks(events, start, cutoff)
          == [Guarded(cutoff, records)] + GuardedChunks(events, end, Last(records).timestamp);
    }
  }

  /** The senders of one chunk, whatever their order: all its newer records when a client could
      be made, none otherwise. */
  ghost predicate Attempts(sent: seq<Record>, g: Guarded, clientOk: bool) {
    multiset(sent) == if clientOk then multiset(Newer(g.cutoff, g.records)) else multiset{}
  }

  ghost predicate AllAttempts(sent: seq<seq<Record>>, chunks: seq<Guarded>, clients: seq<bool>) {
    |sent| == |chunks| == |clients|
    && forall k :: 0 <= k < |sent| ==> Attempts(sent[k], chunks[k], clients[k])
  }

  lemma NextChunk(events: seq<Record>, start: nat, cutoff: int, chunks: seq<Guarded>, k: nat)
    requires start < |events| && k <= |chunks| && chunks[k..] == GuardedChunks(events, start, cutoff)
    ensures var (records, end) := ReadChunk(events, CHUNK, start);
            start < end && Last(records) == events[end - 1]
            && k < |chunks| && chunks[k] == Guarded(cutoff, records)
            && chunks[k + 1..] == GuardedChunks(events, end, Last(records).timestamp)
  {
    assert chunks[k] == chunks[k..][0] && chunks[k + 1..] == chunks[k..][1..];
  }

  lemma NoAttempts(chunks: seq<Guarded>, clients: seq<bool>)
    ensures AllAttempts([], chunks[..0], clients[..0])
  {
  }

  lemma AttemptsSnoc(mine: seq<seq<Record>>, chunks: seq<Guarded>, clients: seq<bool>, k: nat, sent: seq<Record>)
    requires k < |chunks| == |clients| && AllAttempts(mine, chunks[..k], clients[..k])
    requires Attempts(sent, chunks[k], clients[k])
    ensures AllAttempts(mine + [sent], chunks[..k + 1], clients[..k + 1])
  {
    forall j | 0 <= j <= k ensures Attempts((mine + [sent])[j], chunks[..k + 1][j], clients[..k + 1][j]) {
      if j < k {
        assert chunks[..k][j] == chunks[j] && clients[..k][j] == clients[j];
      }
    }
  }

  /** Sent so far and still to be sent make up the newer ones of the submitted records. */
  ghost predicate Pending(cutoff: int, records: seq<Record>, submitted: nat, tasks: seq<Record>, sent: seq<Record>)
    requires submitted <= |records|
  {
    multiset(sent) + multiset(Newer(cutoff, tasks)) == multiset(Newer(cutoff, records[..submitted]))
  }

  lemma PendingEnds(cutoff: int, records: seq<Record>)
    ensures Pending(cutoff, records, 0, [], []) && Attempts([], Guarded(cutoff, records), false)
    ensures forall sent :: Pending(cutoff, records, |records|, [], sent) ==>
            Attempts(sent, Guarded(cutoff, records), true)
  {
    assert records[..|records|] == records && Newer(cutoff, []) == [];
  }

  lemma TaskSubmitted(cutoff: int, records: seq<Record>, submitted: nat, tasks: seq<Record>, sent: seq<Record>)
    requires submitted < |records| && Pending(cutoff, records, submitted, tasks, sent)
    ensures Pending(cutoff, records, submitted + 1, tasks + [records[submitted]], sent)
  {
    var record := records[submitted];
    assert records[..submitted + 1] == records[..submitted] + [record];
    NewerConcat(cutoff, records[..submitted], [record]);
    NewerConcat(cutoff, tasks, [record]);
  }

  lemma TaskRuns(cutoff: int, records: seq<Record>, submitted: nat, tasks: seq<Record>, sent: seq<Record>, i: nat)
    requires submitted <= |records| && i < |tasks| && Pending(cutoff, records, submitted, tasks, sent)
    ensures Pending(cutoff, records, submitted, tasks[..i] + tasks[i + 1..],
                    if cutoff < tasks[i].timestamp then sent + [tasks[i]] else sent)
  {
    var before, after := tasks[..i], tasks[i + 1..];
    assert tasks == before + ([tasks[i]] + after);
    NewerConcat(cutoff, before, [tasks[i]] + after);
    NewerConcat(cutoff, [tasks[i]], after);
    NewerConcat(cutoff, before, after);
    assert [tasks[i]][1..] == [];
  }

  /** The states persisted, one per chunk. */
  function SavedCutoffs(state: EventLogState, events: seq<Record>, start: nat): seq<EventLogState>
    requires start <= |events|
    decreases |events| - start
  {
    if start == |events| then []
    else
      var (records, end) := ReadChunk(events, CHUNK, start);
      [state.(timestamp := Last(records).timestamp)] + SavedCutoffs(state, events, end)
  }

  class Syslog {
    var state: EventLogState
    var persisted: seq<EventLogState>
    var attempted: seq<seq<Record>>   // per chunk, in the order in which the tasks ran

    constructor (state: EventLogState)
      ensures this.state == state && persisted == [] && attempted == []
    {
      this.state, persisted, attempted := state, [], [];
    }

    /** Submits one task per record and waits for all of them. The pool may run a task at any
        moment after its submission; every task compares its record with the cutoff, which
        stays put until the wait is over. The pool accepts a number of submissions; at the first
        that it refuses the method returns without waiting, with tasks left in the pool and the
        wait group counting those and the refused one, for good. */
    method BatchSend(records: seq<Record>, clientOk: bool, accepted: nat)
      returns (sent: seq<Record>, left: seq<Record>, wg: nat)
      ensures !clientOk ==> sent == [] && left == [] && wg == 0
      ensures clientOk && accepted < |records| ==>
        wg == |left| + 1 && Pending(state.timestamp, records, accepted, left, sent)
      ensures accepted >= |records| ==>
        left == [] && wg == 0 && Attempts(sent, Guarded(state.timestamp, records), clientOk)
    {
      hide Newer, Attempts, Pending;
      PendingEnds(state.timestamp, records);
      sent, left, wg := [], [], 0;
      if !clientOk {
        return;
      }
      var submitted := 0;
      while submitted < |records| || wg > 0
        invariant submitted <= |records| && submitted <= accepted && wg == |left|
        invariant Pending(state.timestamp, records, submitted, left, sent)
        decreases |records| - submitted, wg
      {
        if {
          case submitted < |records| =>
            wg := wg + 1;
            if submitted == accepted {
              return;
            }
            TaskSubmitted(state.timestamp, records, submitted, left, sent);
            left, submitted := left + [records[submitted]], submitted + 1;
          case wg > 0 =>
            var i :| 0 <= i < |left|;
            var record := left[i];
            TaskRuns(state.timestamp, records, submitted, left, sent, i);
            left, wg := left[..i] + left[i + 1..], wg - 1;
            if !(state.timestamp >= record.timestamp) {
              sent := sent + [record];
            }
        }
      }
    }

    /** The loop body, for any batch and cutoff: a chunk that does not end above the cutoff
        changes nothing, not even the position; otherwise the cutoff moves to the chunk's end
        whether or not a client could be made. */
    method HandleChunk(events: seq<Record>, startIndex: nat, clientOk: bool) returns (newIndex: nat)
      requires startIndex < |events|
      modifies this
      ensures (newIndex, state.timestamp) == Iterate(events, startIndex, old(state.timestamp))
      ensures state == old(state).(timestamp := state.timestamp)
      ensures newIndex == startIndex ==>
        state == old(state) && attempted == old(attempted) && persisted == old(persisted)
      ensures newIndex > startIndex ==>
        |attempted| == |old(attempted)| + 1 && attempted == old(attempted) + [Last(attempted)]
        && Attempts(Last(attempted), Guarded(old(state.timestamp), events[startIndex..newIndex]), clientOk)
        && persisted == old(persisted) + [state]
    {
      hide Attempts;
      var (records, end) := ReadChunk(events, CHUNK, startIndex);
      if state.timestamp >= Last(records).timestamp {
        return startIndex;
      }
      var sent, _, _ := BatchSend(records, clientOk, |records|);
      attempted := attempted + [sent];
      state := state.(timestamp := Last(records).timestamp);
      persisted := persisted + [state];
      newIndex := end;
    }

    /** The chunk loop, followed for a number of iterations of which the stuck ones of an endless
        loop are some; clients tells for each chunk whether a client could be made. */
    method HandleEvents(events: seq<Record>, clients: seq<bool>, turns: nat) returns (startIndex: nat)
      requires |clients| == |GuardedChunks(events, 0, state.timestamp)|
      modifies this
      ensures (startIndex, state.timestamp) == IterateN(events, 0, old(state.timestamp), turns)
      ensures state == old(state).(timestamp := state.timestamp)
      ensures old(attempted) <= attempted
      ensures var chunks, k := GuardedChunks(events, 0, old(state.timestamp)), |attempted| - |old(attempted)|;
        && k <= |chunks| && chunks[k..] == GuardedChunks(events, startIndex, state.timestamp)
        && AllAttempts(attempted[|old(attempted)|..], chunks[..k], clients[..k])
      ensures persisted + SavedCutoffs(old(state), events, startIndex)
           == old(persisted) + SavedCutoffs(old(state), events, 0)
    {
      hide GuardedChunks, Attempts, AllAttempts;
      ghost var chunks := GuardedChunks(events, 0, state.timestamp);
      ghost var mine: seq<seq<Record>> := [];
      NoAttempts(chunks, clients);
      assert chunks[0..] == chunks;
      var k := 0;
      startIndex := 0;
      var turn := 0;
      while turn < turns && startIndex < |events|
        invariant turn <= turns && startIndex <= |events| && k == |mine| <= |chunks|
        invariant IterateN(events, startIndex, state.timestamp, turns - turn)
               == IterateN(events, 0, old(state.timestamp), turns)
        invariant chunks[k..] == GuardedChunks(events, startIndex, state.timestamp)
        invariant attempted == old(attempted) + mine
        invariant AllAttempts(mine, chunks[..k], clients[..k])
        invariant persisted + SavedCutoffs(old(state), events, startIndex)
               == old(persisted) + SavedCutoffs(old(state), events, 0)
        invariant state == old(state).(timestamp := state.timestamp)
        decreases turns - turn
      {
        NextChunk(events, startIndex, state.timestamp, chunks, k);
        var newIndex := HandleChunk(events, startIndex, clients[k]);
        if newIndex > startIndex {
          AttemptsSnoc(mine, chunks, clients, k, Last(attempted));
          mine := mine + [Last(attempted)];
          k := k + 1;
        }
        startIndex, turn := newIndex, turn + 1;
      }
      if startIndex == |events| {
        NothingLeft(events, state.timestamp, turns - turn);
      }
      assert attempted[|old(attempted)|..] == mine;
    }
  }
}
