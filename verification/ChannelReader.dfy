/** The Windows channel reader: a strict timestamp filter whose cutoff moves with every record
    it lets through, across batches and across runs. */
module ChannelReader {
  import opened Sequences
  import opened Records

  /** What is left of a batch, and the cutoff after it. */
  function Kept(cutoff: int, events: seq<Record>): seq<Record>
    decreases |events|
  {
    if events == [] then []
    else if cutoff >= events[0].timestamp then Kept(cutoff, events[1..])
    else [events[0]] + Kept(events[0].timestamp, events[1..])
  }

  function CutoffAfter(cutoff: int, events: seq<Record>): int
    decreases |events|
  {
    if events == [] then cutoff
    else CutoffAfter(if cutoff >= events[0].timestamp then cutoff else events[0].timestamp, events[1..])
  }

  /** The state after a batch; bookmark is where the event reader stood. */
  function StateAfter(state: EventLogState, events: seq<Record>, bookmark: string): EventLogState {
    var kept := Kept(state.timestamp, events);
    if kept == [] then state
    else state.(recordNumber := Last(kept).recordId, timestamp := Last(kept).timestamp, bookmark := bookmark)
  }

  datatype Err = Nil | EOF | Other

  /** One result of the event reader's Read. */
  datatype ReadResult = ReadResult(events: seq<Record>, err: Err, bookmark: string)

  /** The reads of a run up to and including the first that reports an end or an error. */
  function Consumed(results: seq<ReadResult>): seq<ReadResult> {
    if results == [] then []
    else if results[0].err.Nil? then [results[0]] + Consumed(results[1..])
    else [results[0]]
  }

  /** The batches put on the channel, and the state they leave. */
  function Batches(state: EventLogState, results: seq<ReadResult>): seq<seq<Record>>
    decreases |results|
  {
    if results == [] then []
    else
      var kept := Kept(state.timestamp, results[0].events);
      (if kept == [] then [] else [kept])
      + Batches(StateAfter(state, results[0].events, results[0].bookmark), results[1..])
  }

  function FinalState(state: EventLogState, results: seq<ReadResult>): EventLogState
    decreases |results|
  {
    if results == [] then state
    else FinalState(StateAfter(state, results[0].events, results[0].bookmark), results[1..])
  }

  /** The states persisted, one for each batch sent. */
  function Saves(state: EventLogState, results: seq<ReadResult>): seq<EventLogState>
    decreases |results|
  {
    if results == [] then []
    else
      var next := StateAfter(state, results[0].events, results[0].bookmark);
      (if Kept(state.timestamp, results[0].events) == [] then [] else [next]) + Saves(next, results[1..])
  }

  /** One cron tick: whether the event reader could be made and opened, and what its Reads
      return, as far as the run gets. */
  datatype Tick = Tick(created: bool, openOk: bool, results: seq<ReadResult>)

  /** A tick that finds the reader running does nothing. */
  function Taken(running: bool, tick: Tick): seq<ReadResult> {
    if running || !tick.created || !tick.openOk then [] else Consumed(tick.results)
  }

  /** Only an end or an error reported by Read clears the running flag. */
  function RunningAfter(running: bool, tick: Tick): bool {
    var took := Taken(running, tick);
    took == [] || Last(took).err.Nil?
  }

  lemma {:induction false} ConsumedUpTo(results: seq<ReadResult>, i: nat)
    requires i <= |results| && forall j :: 0 <= j < i - 1 ==> results[j].err.Nil?
    requires i == |results| || (i > 0 && !results[i - 1].err.Nil?)
    ensures Consumed(results) == results[..i]
  {
    if results != [] && results[0].err.Nil? {
      ConsumedUpTo(results[1..], i - 1);
      assert [results[0]] + results[1..][..i - 1] == results[..i];
    }
  }

  lemma {:induction false} ReadsSnoc(state: EventLogState, results: seq<ReadResult>, r: ReadResult)
    ensures var before := FinalState(state, results);
            FinalState(state, results + [r]) == StateAfter(before, r.events, r.bookmark)
            && Batches(state, results + [r])
               == Batches(state, results) + (if Kept(before.timestamp, r.events) == [] then [] else [Kept(before.timestamp, r.events)])
            && Saves(state, results + [r])
               == Saves(state, results)
                  + (if Kept(before.timestamp, r.events) == [] then [] else [StateAfter(before, r.events, r.bookmark)])
    decreases |results|
  {
    if results == [] {
      assert results + [r] == [r] && [r][1..] == [];
    } else {
      var next := StateAfter(state, results[0].events, results[0].bookmark);
      assert (results + [r])[1..] == results[1..] + [r];
      ReadsSnoc(next, results[1..], r);
    }
  }

  lemma KeptEnds(cutoff: int, events: seq<Record>)
    ensures Kept(cutoff, events[|events|..]) == [] && events[0..] == events
  {
  }

  lemma KeptFrom(cutoff: int, events: seq<Record>, i: nat)
    requires i < |events|
    ensures Kept(cutoff, events[i..])
            == if cutoff >= events[i].timestamp then Kept(cutoff, events[i + 1..])
               else [events[i]] + Kept(events[i].timestamp, events[i + 1..])
  {
    assert events[i..][0] == events[i] && events[i..][1..] == events[i + 1..];
  }

  class Reader {
    var running: bool
    var state: EventLogState
    var persisted: seq<EventLogState>
    var records: seq<seq<Record>>   // the channel

    constructor (state: EventLogState)
      ensures this.state == state && !running && persisted == [] && records == []
    {
      running, this.state, persisted, records := false, state, [], [];
    }

    method Run(tick: Tick)
      modifies this
      ensures var took := Taken(old(running), tick);
        state == FinalState(old(state), took)
        && records == old(records) + Batches(old(state), took)
        && persisted == old(persisted) + Saves(old(state), took)
      ensures running == RunningAfter(old(running), tick)
    {
      if running {
        return;
      }
      running := true;
      if !tick.created {
        return;
      }
      if !tick.openOk {
        return;
      }
      ReadLoop(tick.results);
    }

    method ReadLoop(results: seq<ReadResult>)
      requires running
      modifies this
      ensures var took := Consumed(results);
        state == FinalState(old(state), took)
        && records == old(records) + Batches(old(state), took)
        && persisted == old(persisted) + Saves(old(state), took)
        && running == (took == [] || Last(took).err.Nil?)
    {
      hide Kept, StateAfter;
      var i := 0;
      while running && i < |results|
        invariant i <= |results|
        invariant forall j :: 0 <= j < i - 1 ==> results[j].err.Nil?
        invariant i > 0 ==> (running <==> results[i - 1].err.Nil?)
        invariant running || i > 0
        invariant state == FinalState(old(state), results[..i])
        invariant records == old(records) + Batches(old(state), results[..i])
        invariant persisted == old(persisted) + Saves(old(state), results[..i])
        decreases |results| - i
      {
        ReadsSnoc(old(state), results[..i], results[i]);
        assert results[..i + 1] == results[..i] + [results[i]];
        if !results[i].err.Nil? {
          running := false;
        }
        var kept := Filter(results[i].events, results[i].bookmark);
        if |kept| > 0 {
          persisted := persisted + [state];
          records := records + [kept];
        }
        i := i + 1;
      }
      ConsumedUpTo(results, i);
    }

    /** The loop over one batch. */
    method Filter(events: seq<Record>, bookmark: string) returns (records: seq<Record>)
      modifies this`state
      ensures records == Kept(old(state).timestamp, events)
      ensures state == StateAfter(old(state), events, bookmark)
      ensures records == [] ==> state == old(state)
      ensures records != [] ==>
        state.recordNumber == Last(records).recordId && state.timestamp == Last(records).timestamp
        && state.bookmark == bookmark && state.name == old(state).name && state.md5 == old(state).md5
    {
      hide Kept;
      KeptEnds(state.timestamp, events);
      records := [];
      for i := 0 to |events|
        invariant Kept(old(state).timestamp, events) == records + Kept(state.timestamp, events[i..])
        invariant state == if records == [] then old(state) else
          old(state).(recordNumber := Last(records).recordId, timestamp := Last(records).timestamp, bookmark := bookmark)
      {
        KeptFrom(state.timestamp, events, i);
        var record := events[i];
        if state.timestamp >= record.timestamp {
          continue;
        }
        records := records + [record];
        state := state.(recordNumber := record.recordId, timestamp := record.timestamp, bookmark := bookmark);
      }
      KeptEnds(state.timestamp, events);
    }
  }

  // ----- the stream does not depend on how it was cut into batches and runs

  lemma {:induction false} KeptConcat(cutoff: int, a: seq<Record>, b: seq<Record>)
    ensures Kept(cutoff, a + b) == Kept(cutoff, a) + Kept(CutoffAfter(cutoff, a), b)
    ensures CutoffAfter(cutoff, a + b) == CutoffAfter(CutoffAfter(cutoff, a), b)
    decreases |a|
  {
    if a == [] {
      assert a + b == b;
    } else {
      assert (a + b)[1..] == a[1..] + b;
      KeptConcat(if cutoff >= a[0].timestamp then cutoff else a[0].timestamp, a[1..], b);
    }
  }

  lemma {:induction false} CutoffIsLastKept(cutoff: int, events: seq<Record>)
    ensures var kept := Kept(cutoff, events);
            CutoffAfter(cutoff, events) == (if kept == [] then cutoff else Last(kept).timestamp)
            && Ascending(kept) && (forall r :: r in kept ==> cutoff < r.timestamp)
            && cutoff <= CutoffAfter(cutoff, events)
    decreases |events|
  {
    if events != [] {
      CutoffIsLastKept(if cutoff >= events[0].timestamp then cutoff else events[0].timestamp, events[1..]);
    }
  }

  function RawEvents(results: seq<ReadResult>): seq<Record> {
    if results == [] then [] else results[0].events + RawEvents(results[1..])
  }

  /** Over any sequence of reads, from however many runs, the emitted stream is the kept part
      of the raw events taken as one sequence; the cut into reads does not show. */
  lemma {:induction false} StreamIsBatchingFree(state: EventLogState, results: seq<ReadResult>)
    ensures Flatten(Batches(state, results)) == Kept(state.timestamp, RawEvents(results))
    ensures FinalState(state, results).timestamp == CutoffAfter(state.timestamp, RawEvents(results))
    decreases |results|
  {
    if results != [] {
      var next := StateAfter(state, results[0].events, results[0].bookmark);
      CutoffIsLastKept(state.timestamp, results[0].events);
      StreamIsBatchingFree(next, results[1..]);
      KeptConcat(state.timestamp, results[0].events, RawEvents(results[1..]));
      var kept, rest := Kept(state.timestamp, results[0].events), Batches(next, results[1..]);
      FlattenConcat(if kept == [] then [] else [kept], rest);
      FlattenOne(kept);
    }
  }

  /** The reads taken over a sequence of ticks. */
  function AllTaken(running: bool, ticks: seq<Tick>): seq<ReadResult>
    decreases |ticks|
  {
    if ticks == [] then []
    else Taken(running, ticks[0]) + AllTaken(RunningAfter(running, ticks[0]), ticks[1..])
  }

  /** The batches sent over a sequence of ticks, each starting from the state the last left. */
  function Sent(running: bool, state: EventLogState, ticks: seq<Tick>): seq<seq<Record>>
    decreases |ticks|
  {
    if ticks == [] then []
    else
      var took := Taken(running, ticks[0]);
      Batches(state, took) + Sent(RunningAfter(running, ticks[0]), FinalState(state, took), ticks[1..])
  }

  lemma {:induction false} BatchesConcat(state: EventLogState, a: seq<ReadResult>, b: seq<ReadResult>)
    ensures Batches(state, a + b) == Batches(state, a) + Batches(FinalState(state, a), b)
    decreases |a|
  {
    if a == [] {
      assert a + b == b;
    } else {
      assert (a + b)[1..] == a[1..] + b;
      BatchesConcat(StateAfter(state, a[0].events, a[0].bookmark), a[1..], b);
    }
  }

  lemma {:induction false} SentIsOneRun(running: bool, state: EventLogState, ticks: seq<Tick>)
    ensures Sent(running, state, ticks) == Batches(state, AllTaken(running, ticks))
    decreases |ticks|
  {
    if ticks != [] {
      var took, next := Taken(running, ticks[0]), RunningAfter(running, ticks[0]);
      SentIsOneRun(next, FinalState(state, took), ticks[1..]);
      BatchesConcat(state, took, AllTaken(next, ticks[1..]));
    }
  }

  /** The stream over any number of runs. */
  lemma StreamOverRuns(running: bool, state: EventLogState, ticks: seq<Tick>)
    ensures Flatten(Sent(running, state, ticks))
            == Kept(state.timestamp, RawEvents(AllTaken(running, ticks)))
  {
    SentIsOneRun(running, state, ticks);
    StreamIsBatchingFree(state, AllTaken(running, ticks));
  }

  lemma {:induction false} NothingWhileRunning(ticks: seq<Tick>)
    ensures AllTaken(true, ticks) == []
    decreases |ticks|
  {
    if ticks != [] {
      NothingWhileRunning(ticks[1..]);
    }
  }

  /** No read of the run reported an end or an error. */
  ghost predicate NoEnd(results: seq<ReadResult>) {
    forall r :: r in results ==> r.err.Nil?
  }

  lemma {:induction false} ConsumedEnds(results: seq<ReadResult>)
    ensures NoEnd(results) ==> Consumed(results) == results
    ensures !NoEnd(results) ==> Consumed(results) != [] && !Last(Consumed(results)).err.Nil?
  {
    if results != [] && results[0].err.Nil? {
      ConsumedEnds(results[1..]);
      assert NoEnd(results) <==> NoEnd(results[1..]) by {
        assert forall r :: r in results <==> r == results[0] || r in results[1..];
      }
    } else if results != [] {
      assert results[0] in results;
    }
  }

  /** The reads of a run are those up to the first end or error, which is taken too: a prefix of
      which only the last reports one, and the whole if none does. */
  lemma {:induction false} ConsumedIsUpToFirstEnd(results: seq<ReadResult>, n: nat)
    requires n <= |results|
    ensures Consumed(results) == results[..n] <==>
            (forall i :: 0 <= i < n - 1 ==> results[i].err.Nil?)
            && (n == |results| || (n > 0 && !results[n - 1].err.Nil?))
    decreases |results|
  {
    if results == [] {
    } else if n == 0 {
      assert Consumed(results) != [];
    } else {
      var rest := results[1..];
      assert results[..n] == [results[0]] + rest[..n - 1];
      if results[0].err.Nil? {
        ConsumedIsUpToFirstEnd(rest, n - 1);
        assert forall i :: 0 <= i < n - 2 ==> rest[i] == results[i + 1];
        assert Consumed(results) == [results[0]] + Consumed(rest);
        TailOf(results[0], Consumed(rest), rest[..n - 1]);
        if forall i :: 0 <= i < n - 1 ==> results[i].err.Nil? {
          assert forall i :: 0 <= i < n - 2 ==> rest[i].err.Nil?;
        }
      }
    }
  }

  lemma TailOf<T>(x: T, a: seq<T>, b: seq<T>)
    ensures [x] + a == [x] + b <==> a == b
  {
    if [x] + a == [x] + b {
      assert a == ([x] + a)[1..] == ([x] + b)[1..] == b;
    }
  }

  /** The state follows the last record of the last read that kept any; its record number and
      bookmark are that read's too. */
  lemma {:induction false} FinalStateIsLastKept(state: EventLogState, results: seq<ReadResult>)
    ensures var end, batches := FinalState(state, results), Batches(state, results);
            end.name == state.name && end.md5 == state.md5
            && (batches == [] ==> end == state)
            && (batches != [] ==>
                  Last(batches) != [] && end.timestamp == Last(Last(batches)).timestamp
                  && end.recordNumber == Last(Last(batches)).recordId
                  && exists r :: r in results && Last(Last(batches)) in r.events && end.bookmark == r.bookmark)
    decreases |results|
  {
    if results != [] {
      var r := results[0];
      var kept, next := Kept(state.timestamp, r.events), StateAfter(state, r.events, r.bookmark);
      FinalStateIsLastKept(next, results[1..]);
      KeptMembers(state.timestamp, r.events);
      assert r in results && forall q :: q in results[1..] ==> q in results;
      assert kept != [] ==> Last(kept) in kept;
    }
  }

  lemma {:induction false} KeptMembers(cutoff: int, events: seq<Record>)
    ensures forall r :: r in Kept(cutoff, events) ==> r in events
    decreases |events|
  {
    if events != [] {
      KeptMembers(if cutoff >= events[0].timestamp then cutoff else events[0].timestamp, events[1..]);
    }
  }

  /** A tick leaves the reader running exactly when its event reader could not be made or
      opened, or none of its reads reported an end or an error. */
  lemma LeftRunningIff(tick: Tick)
    ensures RunningAfter(false, tick) <==> !tick.created || !tick.openOk || NoEnd(tick.results)
  {
    ConsumedEnds(tick.results);
    if tick.created && tick.openOk && NoEnd(tick.results) && tick.results != [] {
      assert Last(tick.results) in tick.results;
    }
  }

  /** Whatever ticks follow, nothing more is ever read. */
  ghost predicate ReadsNoMore(first: Tick) {
    forall later :: AllTaken(false, [first] + later) == Taken(false, first)
  }

  /** After a tick no later one reads anything exactly when the event reader could not be made
      or opened, or no read of the tick reported an end or an error; after any other tick the
      next one that can reads again. */
  lemma ReadsNoMoreIff(first: Tick)
    ensures ReadsNoMore(first) <==> !first.created || !first.openOk || NoEnd(first.results)
  {
    LeftRunningIff(first);
    var took := Taken(false, first);
    if RunningAfter(false, first) {
      forall later ensures AllTaken(false, [first] + later) == took {
        assert ([first] + later)[1..] == later;
        NothingWhileRunning(later);
      }
    } else {
      var more := [Tick(true, true, [ReadResult([], EOF, "")])];
      assert ([first] + more)[1..] == more;
      assert AllTaken(false, more) == Taken(false, more[0]) + [] by { assert more[1..] == []; }
      assert |AllTaken(false, [first] + more)| == |took| + 1;
    }
  }

  lemma {:induction false} SentNothingWhileRunning(state: EventLogState, ticks: seq<Tick>)
    ensures Sent(true, state, ticks) == []
    decreases |ticks|
  {
    if ticks != [] {
      SentNothingWhileRunning(state, ticks[1..]);
    }
  }

  /** In particular a failed creation or open is for good: nothing is ever sent. */
  lemma FailedOpenIsForGood(state: EventLogState, first: Tick, later: seq<Tick>)
    requires !first.created || !first.openOk
    ensures Sent(false, state, [first] + later) == []
  {
    assert ([first] + later)[1..] == later;
    SentNothingWhileRunning(state, later);
  }

  /** events[i] is newer than the cutoff and than everything before it. */
  ghost predicate IsRecord(cutoff: int, events: seq<Record>, i: nat)
    requires i < |events|
  {
    cutoff < events[i].timestamp && forall j :: 0 <= j < i ==> events[j].timestamp < events[i].timestamp
  }

  /** The records among the first n events, in order. */
  ghost function RunningMaximum(cutoff: int, events: seq<Record>, n: nat): seq<Record>
    requires n <= |events|
  {
    if n == 0 then []
    else RunningMaximum(cutoff, events, n - 1) + (if IsRecord(cutoff, events, n - 1) then [events[n - 1]] else [])
  }

  /** The cutoff is the greatest timestamp met so far. */
  lemma {:induction false} CutoffIsMaximum(cutoff: int, events: seq<Record>)
    ensures var c := CutoffAfter(cutoff, events);
            cutoff <= c && (forall r :: r in events ==> r.timestamp <= c)
            && (c == cutoff || exists r :: r in events && r.timestamp == c)
    decreases |events|
  {
    if events != [] {
      CutoffIsMaximum(if cutoff >= events[0].timestamp then cutoff else events[0].timestamp, events[1..]);
      assert events[0] in events;
    }
  }

  lemma {:induction false} KeptIsRunningMaximumUpTo(cutoff: int, events: seq<Record>, n: nat)
    requires n <= |events|
    ensures Kept(cutoff, events[..n]) == RunningMaximum(cutoff, events, n)
  {
    if n > 0 {
      var seen, e := events[..n - 1], events[n - 1];
      KeptIsRunningMaximumUpTo(cutoff, events, n - 1);
      assert events[..n] == seen + [e];
      KeptConcat(cutoff, seen, [e]);
      CutoffIsMaximum(cutoff, seen);
      NewMaximum(cutoff, events, n - 1);
      assert [e][1..] == [];
    }
  }

  lemma NewMaximum(cutoff: int, events: seq<Record>, i: nat)
    requires i < |events|
    ensures IsRecord(cutoff, events, i) <==> CutoffAfter(cutoff, events[..i]) < events[i].timestamp
  {
    var seen := events[..i];
    CutoffIsMaximum(cutoff, seen);
    assert forall j :: 0 <= j < i ==> seen[j] == events[j] && seen[j] in seen;
    if IsRecord(cutoff, events, i) && CutoffAfter(cutoff, seen) != cutoff {
      var r :| r in seen && r.timestamp == CutoffAfter(cutoff, seen);
    }
  }

  /** What is kept is the strict running maximum above the cutoff: every event newer than the
      cutoff and than all events before it, and no other. */
  lemma KeptIsRunningMaximum(cutoff: int, events: seq<Record>)
    ensures Kept(cutoff, events) == RunningMaximum(cutoff, events, |events|)
  {
    KeptIsRunningMaximumUpTo(cutoff, events, |events|);
    assert events[..|events|] == events;
  }

  /** Events already seen are never emitted again, however they come back. */
  lemma {:induction false} SeenEventsEmitNothing(cutoff: int, seen: seq<Record>, again: seq<Record>)
    requires forall r :: r in again ==> r in seen
    ensures Kept(CutoffAfter(cutoff, seen), again) == []
    ensures CutoffAfter(CutoffAfter(cutoff, seen), again) == CutoffAfter(cutoff, seen)
    decreases |again|
  {
    if again != [] {
      CutoffIsMaximum(cutoff, seen);
      assert again[0] in again;
      SeenEventsEmitNothing(cutoff, seen, again[1..]);
    }
  }

  /** The persisted timestamps rise strictly from the cutoff the reader was given, and each is
      that of the last record of its batch. */
  lemma {:induction false} SavesRise(state: EventLogState, results: seq<ReadResult>)
    ensures var saves, batches := Saves(state, results), Batches(state, results);
            |saves| == |batches|
            && (forall i :: 0 <= i < |saves| ==>
                  saves[i].name == state.name && state.timestamp < saves[i].timestamp
                  && batches[i] != [] && saves[i].timestamp == Last(batches[i]).timestamp)
            && (forall i, j :: 0 <= i < j < |saves| ==> saves[i].timestamp < saves[j].timestamp)
    decreases |results|
  {
    if results != [] {
      var next := StateAfter(state, results[0].events, results[0].bookmark);
      CutoffIsLastKept(state.timestamp, results[0].events);
      SavesRise(next, results[1..]);
    }
  }
}
