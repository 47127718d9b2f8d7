/** scanXML: filters one snapshot of the log after another against a (timestamp, MD5) cutoff
    and emits what is new in chunks. */
module EtlScanner {
  import opened Sequences
  import opened Records

  /** A record survives the filter when it is newer than the cutoff, or as new but a
      different record. */
  predicate Passes(cutoff: EventLogState, r: Record) {
    cutoff.timestamp < r.timestamp
    || (cutoff.timestamp == r.timestamp && cutoff.md5 != Md5Of(r))
  }

  function Delta(cutoff: EventLogState, events: seq<Record>): seq<Record> {
    if events == [] then []
    else (if Passes(cutoff, events[0]) then [events[0]] else []) + Delta(cutoff, events[1..])
  }

  function CutoffAt(path: string, r: Record): EventLogState {
    EventLogState(path, 0, r.timestamp, Md5Of(r), "")
  }

  function CutoffAfter(path: string, cutoff: EventLogState, events: seq<Record>): EventLogState {
    var delta := Delta(cutoff, events);
    if delta == [] then cutoff else CutoffAt(path, Last(delta))
  }

  /** The states persisted for the chunks of delta from start on, in order. */
  function ChunkCutoffs(path: string, delta: seq<Record>, size: nat, start: nat := 0): seq<EventLogState>
    requires size >= 1 && start <= |delta|
    decreases |delta| - start
  {
    if start == |delta| then []
    else
      var (chunk, end) := ReadChunk(delta, size, start);
      [CutoffAt(path, Last(chunk))] + ChunkCutoffs(path, delta, size, end)
  }

  lemma ChunkLoopStep(path: string, delta: seq<Record>, size: nat, start: nat)
    requires size >= 1 && start < |delta|
    ensures var (chunk, end) := ReadChunk(delta, size, start);
            && start < end && chunk != [] && Last(chunk) == delta[end - 1]
            && ChunksFrom(delta, size, start) == [chunk] + ChunksFrom(delta, size, end)
            && ChunkCutoffs(path, delta, size, start)
               == [CutoffAt(path, Last(chunk))] + ChunkCutoffs(path, delta, size, end)
  {
  }

  lemma ChunkLoopEnd(path: string, delta: seq<Record>, size: nat)
    requires size >= 1
    ensures ChunksFrom(delta, size, |delta|) == []
    ensures ChunkCutoffs(path, delta, size, |delta|) == []
    ensures delta == [] ==> Chunks(delta, size) == []
  {
  }

  lemma {:induction false} DeltaConcat(cutoff: EventLogState, a: seq<Record>, b: seq<Record>)
    ensures Delta(cutoff, a + b) == Delta(cutoff, a) + Delta(cutoff, b)
  {
    if a == [] {
      assert a + b == b;
    } else {
      DeltaConcat(cutoff, a[1..], b);
      assert (a + b)[1..] == a[1..] + b;
    }
  }

  lemma DeltaSnoc(cutoff: EventLogState, events: seq<Record>, i: nat)
    requires i < |events|
    ensures Delta(cutoff, events[..i + 1])
            == Delta(cutoff, events[..i]) + (if Passes(cutoff, events[i]) then [events[i]] else [])
  {
    assert events[..i + 1] == events[..i] + [events[i]];
    DeltaConcat(cutoff, events[..i], [events[i]]);
    assert [events[i]][1..] == [];
  }

  class Scanner {
    const logPath: string
    const maxRead: int
    var state: EventLogState
    var persisted: seq<EventLogState>   // what PersistState was given
    var records: seq<seq<Record>>       // what was put on the records channel

    constructor (logPath: string, maxRead: int, state: EventLogState)
      ensures this.logPath == logPath && this.maxRead == maxRead && this.state == state
      ensures persisted == [] && records == []
    {
      this.logPath, this.maxRead, this.state := logPath, maxRead, state;
      persisted, records := [], [];
    }

    /** One turn of the scan loop. With new records and a chunk size below one the chunk loop
        panics on an empty or negative slice, before anything is persisted or sent. */
    method ScanFile(eventLogs: seq<Record>) returns (panics: bool)
      modifies this
      ensures panics <==> maxRead < 1 && Delta(old(state), eventLogs) != []
      ensures panics ==>
        state == old(state) && records == old(records) && persisted == old(persisted)
      ensures !panics ==> state == CutoffAfter(logPath, old(state), eventLogs)
      ensures !panics && Delta(old(state), eventLogs) != [] ==>
        var last := Last(Delta(old(state), eventLogs));
        state.name == logPath && state.timestamp == last.timestamp && state.md5 == Md5Of(last)
      ensures !panics ==> Flatten(records) == Flatten(old(records)) + Delta(old(state), eventLogs)
      ensures maxRead >= 1 ==>
        records == old(records) + Chunks(Delta(old(state), eventLogs), maxRead)
        && persisted == old(persisted) + ChunkCutoffs(logPath, Delta(old(state), eventLogs), maxRead)
    {
      var deltaEvents := NewEvents(eventLogs);
      if maxRead >= 1 {
        FlattenConcat(records, Chunks(deltaEvents, maxRead));
        ChunksPartition(deltaEvents, maxRead, 0);
      }
      panics := Emit(deltaEvents);
    }

    /** The filter loop: the cutoff stays what it was when the file was opened. */
    method NewEvents(eventLogs: seq<Record>) returns (deltaEvents: seq<Record>)
      ensures deltaEvents == Delta(state, eventLogs)
    {
      deltaEvents := [];
      for i := 0 to |eventLogs|
        invariant deltaEvents == Delta(state, eventLogs[..i])
      {
        DeltaSnoc(state, eventLogs, i);
        if Passes(state, eventLogs[i]) {
          deltaEvents := deltaEvents + [eventLogs[i]];
        }
      }
      assert eventLogs[..|eventLogs|] == eventLogs;
    }

    /** The chunk loop: persist the chunk's last record, send the chunk, move on. */
    method Emit(deltaEvents: seq<Record>) returns (panics: bool)
      modifies this
      ensures panics <==> maxRead < 1 && deltaEvents != []
      ensures state == if deltaEvents == [] || panics then old(state) else CutoffAt(logPath, Last(deltaEvents))
      ensures panics || deltaEvents == [] ==> records == old(records) && persisted == old(persisted)
      ensures maxRead >= 1 ==>
        records == old(records) + Chunks(deltaEvents, maxRead)
        && persisted == old(persisted) + ChunkCutoffs(logPath, deltaEvents, maxRead)
    {
      hide Flatten, Delta, ReadChunk, ChunksFrom, ChunkCutoffs;
      if maxRead >= 1 {
        ChunkLoopEnd(logPath, deltaEvents, maxRead);
      }
      if |deltaEvents| == 0 {
        return false;
      }
      if maxRead < 1 {
        return true;
      }
      panics := false;
      var startIndex := 0;
      while startIndex < |deltaEvents|
        invariant startIndex <= |deltaEvents|
        invariant records + ChunksFrom(deltaEvents, maxRead, startIndex)
               == old(records) + Chunks(deltaEvents, maxRead)
        invariant persisted + ChunkCutoffs(logPath, deltaEvents, maxRead, startIndex)
               == old(persisted) + ChunkCutoffs(logPath, deltaEvents, maxRead)
        invariant state == if startIndex == 0 then old(state)
                           else CutoffAt(logPath, deltaEvents[startIndex - 1])
      {
        ChunkLoopStep(logPath, deltaEvents, maxRead, startIndex);
        var (chunk, newIndex) := ReadChunk(deltaEvents, maxRead, startIndex);
        state := CutoffAt(logPath, Last(chunk));
        persisted := persisted + [state];
        records := records + [chunk];
        startIndex := newIndex;
      }
    }
  }

  /** The scanner over a whole sequence of snapshots. */
  datatype Scan = Scan(cutoff: EventLogState, out: seq<Record>)

  function ScanAll(path: string, cutoff: EventLogState, files: seq<seq<Record>>): Scan {
    if files == [] then Scan(cutoff, [])
    else
      var before := ScanAll(path, cutoff, files[..|files| - 1]);
      Scan(CutoffAfter(path, before.cutoff, Last(files)),
           before.out + Delta(before.cutoff, Last(files)))
  }

  lemma ScanAllSnoc(path: string, cutoff: EventLogState, files: seq<seq<Record>>, f: seq<Record>)
    ensures var before := ScanAll(path, cutoff, files);
            ScanAll(path, cutoff, files + [f])
              == Scan(CutoffAfter(path, before.cutoff, f), before.out + Delta(before.cutoff, f))
  {
    assert (files + [f])[..|files|] == files;
  }

  // ----- what the filter keeps

  lemma {:induction false} DeltaMembers(cutoff: EventLogState, events: seq<Record>)
    ensures forall r :: r in Delta(cutoff, events) <==> r in events && Passes(cutoff, r)
    ensures |Delta(cutoff, events)| <= |events|
  {
    if events != [] {
      DeltaMembers(cutoff, events[1..]);
    }
  }

  lemma {:induction false} DeltaAll(cutoff: EventLogState, events: seq<Record>)
    requires forall r :: r in events ==> Passes(cutoff, r)
    ensures Delta(cutoff, events) == events
  {
    if events != [] {
      DeltaAll(cutoff, events[1..]);
    }
  }

  lemma {:induction false} DeltaNone(cutoff: EventLogState, events: seq<Record>)
    requires forall r :: r in events ==> !Passes(cutoff, r)
    ensures Delta(cutoff, events) == []
  {
    if events != [] {
      DeltaNone(cutoff, events[1..]);
    }
  }

  /** On arbitrary input, scanning a file never moves the cutoff's timestamp back. */
  lemma CutoffNeverDecreases(path: string, cutoff: EventLogState, events: seq<Record>)
    ensures cutoff.timestamp <= CutoffAfter(path, cutoff, events).timestamp
  {
    DeltaMembers(cutoff, events);
    var delta := Delta(cutoff, events);
    if delta != [] {
      assert Last(delta) in delta;
    }
  }

  // ----- a log with strictly increasing timestamps

  /** The first index at which the log is past the cutoff. */
  function FirstNew(log: seq<Record>, cutoff: EventLogState): (i: nat)
    ensures i <= |log|
    ensures i < |log| ==> Passes(cutoff, log[i])
    ensures forall j :: 0 <= j < i ==> !Passes(cutoff, log[j])
  {
    if log == [] then 0
    else if Passes(cutoff, log[0]) then 0
    else 1 + FirstNew(log[1..], cutoff)
  }

  lemma FirstNewIs(log: seq<Record>, cutoff: EventLogState, i: nat)
    requires i <= |log|
    requires i < |log| ==> Passes(cutoff, log[i])
    requires forall j :: 0 <= j < i ==> !Passes(cutoff, log[j])
    ensures FirstNew(log, cutoff) == i
  {
  }

  function Max(a: nat, b: nat): nat {
    if a < b then b else a
  }

  /** From a prefix, the filter takes exactly the part at and above the first new index, and
      the new cutoff's first new index is where the prefix ended. */
  lemma PrefixDelta(path: string, log: seq<Record>, cutoff: EventLogState, n: nat)
    requires Ascending(log) && n <= |log|
    ensures var start := FirstNew(log, cutoff);
            Delta(cutoff, log[..n]) == log[start..Max(start, n)]
            && FirstNew(log, CutoffAfter(path, cutoff, log[..n])) == Max(start, n)
  {
    hide Delta;
    var start := FirstNew(log, cutoff);
    if start >= n {
      DeltaNone(cutoff, log[..n]);
    } else {
      PrefixSplit(log, cutoff, n);
      assert Last(log[start..n]) == log[n - 1];
      FirstNewIs(log, CutoffAt(path, log[n - 1]), n);
    }
  }

  lemma PrefixSplit(log: seq<Record>, cutoff: EventLogState, n: nat)
    requires Ascending(log) && FirstNew(log, cutoff) < n <= |log|
    ensures Delta(cutoff, log[..n]) == log[FirstNew(log, cutoff)..n]
  {
    hide Delta;
    var start := FirstNew(log, cutoff);
    var below, above := log[..start], log[start..n];
    assert log[..n] == below + above;
    DeltaConcat(cutoff, below, above);
    DeltaNone(cutoff, below);
    forall r | r in above ensures Passes(cutoff, r) {
      var k :| 0 <= k < |above| && above[k] == r;
      assert r == log[start + k];
    }
    DeltaAll(cutoff, above);
  }

  /** The lengths of the scanned prefixes at their greatest. */
  function Longest(files: seq<seq<Record>>): nat {
    if files == [] then 0
    else Max(Longest(files[..|files| - 1]), |Last(files)|)
  }

  ghost predicate AllPrefixes(log: seq<Record>, files: seq<seq<Record>>) {
    forall f :: f in files ==> f <= log
  }

  /** Whatever prefixes of the log are scanned, and in whatever order, the output is the one
      contiguous stretch from the initial cutoff to the end of the longest prefix. */
  lemma {:induction false} ContiguousStretch(
    path: string, log: seq<Record>, cutoff: EventLogState, files: seq<seq<Record>>)
    requires Ascending(log) && AllPrefixes(log, files)
    ensures Longest(files) <= |log|
    ensures var start := FirstNew(log, cutoff);
            var stop := Max(start, Longest(files));
            ScanAll(path, cutoff, files).out == log[start..stop]
            && FirstNew(log, ScanAll(path, cutoff, files).cutoff) == stop
    decreases |files|
  {
    if files != [] {
      var init, f := files[..|files| - 1], Last(files);
      assert f in files && (forall g :: g in init ==> g in files);
      ContiguousStretch(path, log, cutoff, init);
      StretchStep(path, log, cutoff, ScanAll(path, cutoff, init), Longest(init), f);
    }
  }

  lemma StretchStep(
    path: string, log: seq<Record>, cutoff: EventLogState, before: Scan, done: nat, f: seq<Record>)
    requires Ascending(log) && f <= log && done <= |log|
    requires before.out == log[FirstNew(log, cutoff)..Max(FirstNew(log, cutoff), done)]
    requires FirstNew(log, before.cutoff) == Max(FirstNew(log, cutoff), done)
    ensures var stop := Max(FirstNew(log, cutoff), Max(done, |f|));
            before.out + Delta(before.cutoff, f) == log[FirstNew(log, cutoff)..stop]
            && FirstNew(log, CutoffAfter(path, before.cutoff, f)) == stop
  {
    hide CutoffAfter, Ascending, Delta, FirstNew;
    assert f == log[..|f|];
    PrefixDelta(path, log, before.cutoff, |f|);
    var first := FirstNew(log, cutoff);
    JoinStretches(log, first, Max(first, done), Max(Max(first, done), |f|));
  }

  lemma JoinStretches(log: seq<Record>, a: nat, b: nat, c: nat)
    requires a <= b <= c <= |log|
    ensures log[a..b] + log[b..c] == log[a..c]
  {
  }

  // ----- a log whose timestamps may tie

  /** The current cutoff is the initial one, or that of a record already delivered, and
      nothing delivered is newer than it. */
  ghost predicate CutoffDelivered(initial: EventLogState, scan: Scan) {
    && (scan.cutoff == initial
        || exists r :: r in scan.out && scan.cutoff.timestamp == r.timestamp && scan.cutoff.md5 == Md5Of(r))
    && (forall r :: r in scan.out ==> r.timestamp <= scan.cutoff.timestamp)
    && initial.timestamp <= scan.cutoff.timestamp
  }

  lemma PrefixIsNonDecreasing(log: seq<Record>, f: seq<Record>)
    requires NonDecreasing(log) && f <= log
    ensures NonDecreasing(f)
  {
    assert forall i :: 0 <= i < |f| ==> f[i] == log[i];
  }

  lemma {:induction false} DeltaNonDecreasing(cutoff: EventLogState, events: seq<Record>)
    requires NonDecreasing(events)
    ensures NonDecreasing(Delta(cutoff, events))
  {
    if events != [] {
      DeltaNonDecreasing(cutoff, events[1..]);
      DeltaMembers(cutoff, events[1..]);
      assert forall r :: r in events[1..] ==> events[0].timestamp <= r.timestamp;
    }
  }

  lemma {:induction false} CutoffIsDelivered(
    path: string, log: seq<Record>, cutoff: EventLogState, files: seq<seq<Record>>)
    requires NonDecreasing(log) && AllPrefixes(log, files)
    ensures CutoffDelivered(cutoff, ScanAll(path, cutoff, files))
    decreases |files|
  {
    if files != [] {
      var init, f := files[..|files| - 1], Last(files);
      assert f in files && (forall g :: g in init ==> g in files);
      CutoffIsDelivered(path, log, cutoff, init);
      var before := ScanAll(path, cutoff, init);
      var delta := Delta(before.cutoff, f);
      PrefixIsNonDecreasing(log, f);
      DeltaMembers(before.cutoff, f);
      DeltaNonDecreasing(before.cutoff, f);
      if delta != [] {
        assert Last(delta) in ScanAll(path, cutoff, files).out;
        assert forall r :: r in delta ==> r.timestamp <= Last(delta).timestamp;
      }
    }
  }

  /** No loss under ties: every record of a scanned prefix that is above the initial cutoff
      has been delivered. */
  lemma {:induction false} TiesNothingLost(
    path: string, log: seq<Record>, cutoff: EventLogState, files: seq<seq<Record>>, f: seq<Record>, r: Record)
    requires NonDecreasing(log) && Distinct(log) && AllPrefixes(log, files)
    requires f in files && r in f && Passes(cutoff, r)
    ensures r in ScanAll(path, cutoff, files).out
    decreases |files|
  {
    var init, g := files[..|files| - 1], Last(files);
    assert g in files && (forall h :: h in init ==> h in files);
    var before := ScanAll(path, cutoff, init);
    DeltaMembers(before.cutoff, g);
    if f in init {
      TiesNothingLost(path, log, cutoff, init, f, r);
    } else {
      assert f == g;
      CutoffIsDelivered(path, log, cutoff, init);
      if r !in before.out && !Passes(before.cutoff, r) {
        // The cutoff is a delivered record at a smaller index than r's, or r itself.
        var d :| d in before.out && before.cutoff.timestamp == d.timestamp && before.cutoff.md5 == Md5Of(d);
        OutFromFiles(path, cutoff, init, d);
        var e :| e in init && d in e;
        if r !in e {
          LaterIsNewer(log, e, f, d, r);
          assert false;
        }
        TiesNothingLost(path, log, cutoff, init, e, r);
      }
    }
  }

  /** In a log without repetitions, what one prefix has and another lacks comes later. */
  lemma LaterIsNewer(log: seq<Record>, e: seq<Record>, f: seq<Record>, d: Record, r: Record)
    requires NonDecreasing(log) && e <= log && f <= log
    requires d in e && r in f && r !in e
    ensures d.timestamp <= r.timestamp
  {
    var i :| 0 <= i < |f| && f[i] == r;
    var j :| 0 <= j < |e| && e[j] == d;
    assert log[i] == r && log[j] == d;
    assert forall k :: 0 <= k < |e| ==> e[k] == log[k];
    assert |e| <= i;
  }

  lemma {:induction false} OutFromFiles(path: string, cutoff: EventLogState, files: seq<seq<Record>>, r: Record)
    requires r in ScanAll(path, cutoff, files).out
    ensures exists f :: f in files && r in f
    decreases |files|
  {
    var init, g := files[..|files| - 1], Last(files);
    assert g in files && (forall h :: h in init ==> h in files);
    var before := ScanAll(path, cutoff, init);
    DeltaMembers(before.cutoff, g);
    if r in before.out {
      OutFromFiles(path, cutoff, init, r);
    }
  }

  /** Redelivery only on a tie: a record that goes out a second time carries the timestamp of
      the cutoff it is compared with, but not its digest. */
  lemma TiesRedeliverOnlyAtCutoff(
    path: string, log: seq<Record>, cutoff: EventLogState, files: seq<seq<Record>>, f: seq<Record>, r: Record)
    requires NonDecreasing(log) && AllPrefixes(log, files)
    requires r in ScanAll(path, cutoff, files).out
    requires r in Delta(ScanAll(path, cutoff, files).cutoff, f)
    ensures var now := ScanAll(path, cutoff, files).cutoff;
            r.timestamp == now.timestamp && Md5Of(r) != now.md5
  {
    CutoffIsDelivered(path, log, cutoff, files);
    DeltaMembers(ScanAll(path, cutoff, files).cutoff, f);
  }

  // ----- the cutoffs persisted inside one file

  ghost predicate NeverDrop(cutoffs: seq<EventLogState>) {
    forall i, j :: 0 <= i < j < |cutoffs| ==> cutoffs[i].timestamp <= cutoffs[j].timestamp
  }

  /** Where the chunk number i ends, when n records are cut into chunks of size from start on. */
  function ChunkEnd(n: nat, size: nat, start: nat, i: nat): (end: nat)
    requires size >= 1 && start + i * size < n
    ensures start + i * size <= end < n
  {
    assert (i + 1) * size == i * size + size;
    (if start + (i + 1) * size < n then start + (i + 1) * size else n) - 1
  }

  lemma ChunkShift(n: nat, size: nat, start: nat, i: nat)
    requires size >= 1 && start < n
    ensures var end := if start + size > n then n else start + size;
            if i == 0 then start + i * size < n && ChunkEnd(n, size, start, i) == end - 1
            else
              (start + i * size < n <==> end + (i - 1) * size < n)
              && (start + i * size < n ==> ChunkEnd(n, size, start, i) == ChunkEnd(n, size, end, i - 1))
  {
    if i == 0 {
      assert i * size == 0 && (i + 1) * size == size;
    } else {
      Times(i, size);
      Times(i + 1, size);
    }
  }

  lemma Times(i: nat, size: nat)
    requires i >= 1
    ensures i * size == (i - 1) * size + size && (i - 1) * size >= 0
  {
  }

  /** One cutoff is persisted for each chunk, and it is that of the chunk's last record. */
  lemma {:induction false} CutoffsAtChunkEnds(path: string, delta: seq<Record>, size: nat, start: nat)
    requires size >= 1 && start <= |delta|
    ensures var cutoffs := ChunkCutoffs(path, delta, size, start);
            forall i: nat ::
              (i < |cutoffs| <==> start + i * size < |delta|)
              && (i < |cutoffs| ==> cutoffs[i] == CutoffAt(path, delta[ChunkEnd(|delta|, size, start, i)]))
    decreases |delta| - start
  {
    var n, cutoffs := |delta|, ChunkCutoffs(path, delta, size, start);
    if start < n {
      var end := if start + size > n then n else start + size;
      CutoffsAtChunkEnds(path, delta, size, end);
      ChunkLoopStep(path, delta, size, start);
      hide ChunkEnd;
      forall i: nat
        ensures i < |cutoffs| <==> start + i * size < n
        ensures i < |cutoffs| ==> cutoffs[i] == CutoffAt(path, delta[ChunkEnd(n, size, start, i)])
      {
        ChunkShift(n, size, start, i);
        if i > 0 {
          var j: nat := i - 1;
          assert j < |cutoffs| - 1 <==> end + j * size < n;
        }
      }
    } else {
      assert forall i: nat :: i * size >= 0;
    }
  }

  /** For a given chunk size, the cutoffs persisted inside one file never move back exactly when
      the records at the chunks' ends are in time order. */
  lemma CutoffsOrderedIffChunkEndsAre(path: string, delta: seq<Record>, size: nat)
    requires size >= 1
    ensures NeverDrop(ChunkCutoffs(path, delta, size))
            <==> forall i: nat, j: nat :: i < j && i * size < |delta| && j * size < |delta| ==>
                   delta[ChunkEnd(|delta|, size, 0, i)].timestamp <= delta[ChunkEnd(|delta|, size, 0, j)].timestamp
  {
    CutoffsAtChunkEnds(path, delta, size, 0);
  }

  lemma LaterEnds(n: nat, size: nat, i: nat, j: nat)
    requires size >= 1 && i < j && i * size < n && j * size < n
    ensures ChunkEnd(n, size, 0, i) < ChunkEnd(n, size, 0, j)
  {
    TimesLater(i, j, size);
  }

  lemma {:induction false} TimesLater(i: nat, j: nat, size: nat)
    requires i < j
    ensures (i + 1) * size <= j * size
  {
    if i + 1 < j {
      TimesLater(i, j - 1, size);
      Times(j, size);
    }
  }

  lemma OrderedCutoffs(path: string, delta: seq<Record>, size: nat)
    requires size >= 1 && NonDecreasing(delta)
    ensures NeverDrop(ChunkCutoffs(path, delta, size))
  {
    hide ChunkEnd, ChunkCutoffs, NeverDrop;
    forall i: nat, j: nat | i < j && i * size < |delta| && j * size < |delta|
      ensures delta[ChunkEnd(|delta|, size, 0, i)].timestamp <= delta[ChunkEnd(|delta|, size, 0, j)].timestamp
    {
      LaterEnds(|delta|, size, i, j);
    }
    CutoffsOrderedIffChunkEndsAre(path, delta, size);
  }

  /** With chunks of one record every record is a chunk's end. */
  lemma OneByOne(path: string, delta: seq<Record>, i: nat)
    requires i < |delta|
    ensures var cutoffs := ChunkCutoffs(path, delta, 1);
            i < |cutoffs| && cutoffs[i].timestamp == delta[i].timestamp
  {
    CutoffsAtChunkEnds(path, delta, 1, 0);
    hide ChunkCutoffs;
    assert 0 + i * 1 < |delta| && (i + 1) * 1 == i + 1;
    assert ChunkEnd(|delta|, 1, 0, i) == i;
  }

  lemma SingleCutoffs(path: string, delta: seq<Record>)
    requires NeverDrop(ChunkCutoffs(path, delta, 1))
    ensures NonDecreasing(delta)
  {
    hide ChunkCutoffs;
    forall i, j | 0 <= i < j < |delta| ensures delta[i].timestamp <= delta[j].timestamp {
      OneByOne(path, delta, i);
      OneByOne(path, delta, j);
    }
  }

  ghost predicate NeverDropForAnySize(path: string, delta: seq<Record>) {
    forall size: nat :: size >= 1 ==> NeverDrop(ChunkCutoffs(path, delta, size))
  }

  /** Whatever the chunk size, they never move back exactly when the new records are in time
      order. */
  lemma CutoffsOrderedIffNewRecordsAre(path: string, delta: seq<Record>)
    ensures NeverDropForAnySize(path, delta) <==> NonDecreasing(delta)
  {
    hide ChunkCutoffs, NeverDrop, NonDecreasing;
    if NonDecreasing(delta) {
      forall size: nat | size >= 1 ensures NeverDrop(ChunkCutoffs(path, delta, size)) {
        OrderedCutoffs(path, delta, size);
      }
      assert NeverDropForAnySize(path, delta);
    }
    if NeverDropForAnySize(path, delta) {
      assert NeverDrop(ChunkCutoffs(path, delta, 1));
      SingleCutoffs(path, delta);
    }
  }

  /** The records of a file that the filter lets through are in time order. */
  ghost predicate PassingInOrder(cutoff: EventLogState, events: seq<Record>) {
    forall i, j :: 0 <= i < j < |events| && Passes(cutoff, events[i]) && Passes(cutoff, events[j]) ==>
      events[i].timestamp <= events[j].timestamp
  }

  lemma ConsInOrder(r: Record, tail: seq<Record>)
    ensures NonDecreasing([r] + tail)
            <==> NonDecreasing(tail) && forall q :: q in tail ==> r.timestamp <= q.timestamp
  {
    var s := [r] + tail;
    assert forall i :: 0 <= i < |tail| ==> s[i + 1] == tail[i];
    if NonDecreasing(s) {
      forall i, j | 0 <= i < j < |tail| ensures tail[i].timestamp <= tail[j].timestamp {
        assert s[i + 1].timestamp <= s[j + 1].timestamp;
      }
      forall q | q in tail ensures r.timestamp <= q.timestamp {
        var i :| 0 <= i < |tail| && tail[i] == q;
        assert s[0].timestamp <= s[i + 1].timestamp;
      }
    }
    if NonDecreasing(tail) && forall q :: q in tail ==> r.timestamp <= q.timestamp {
      forall i, j | 0 <= i < j < |s| ensures s[i].timestamp <= s[j].timestamp {
        assert s[j] == tail[j - 1] && s[j] in tail;
      }
    }
  }

  lemma FirstInOrder(cutoff: EventLogState, events: seq<Record>)
    requires events != [] && Passes(cutoff, events[0])
    ensures PassingInOrder(cutoff, events)
            <==> PassingInOrder(cutoff, events[1..])
                 && forall q :: q in events[1..] && Passes(cutoff, q) ==> events[0].timestamp <= q.timestamp
  {
    var t := events[1..];
    assert forall i :: 0 <= i < |t| ==> t[i] == events[i + 1];
    if PassingInOrder(cutoff, events) {
      forall q | q in t && Passes(cutoff, q) ensures events[0].timestamp <= q.timestamp {
        var i :| 0 <= i < |t| && t[i] == q;
        assert events[i + 1] == q;
      }
      TailInOrder(cutoff, events);
    }
    if PassingInOrder(cutoff, t)
       && forall q :: q in t && Passes(cutoff, q) ==> events[0].timestamp <= q.timestamp {
      forall i, j | 0 <= i < j < |events| && Passes(cutoff, events[i]) && Passes(cutoff, events[j])
        ensures events[i].timestamp <= events[j].timestamp
      {
        assert events[j] == t[j - 1] && t[j - 1] in t;
        if i > 0 {
          assert events[i] == t[i - 1];
        }
      }
    }
  }

  lemma TailInOrder(cutoff: EventLogState, events: seq<Record>)
    requires events != [] && PassingInOrder(cutoff, events)
    ensures PassingInOrder(cutoff, events[1..])
  {
    var t := events[1..];
    forall i, j | 0 <= i < j < |t| && Passes(cutoff, t[i]) && Passes(cutoff, t[j])
      ensures t[i].timestamp <= t[j].timestamp
    {
      assert t[i] == events[i + 1] && t[j] == events[j + 1];
    }
  }

  lemma RestInOrder(cutoff: EventLogState, events: seq<Record>)
    requires events != [] && !Passes(cutoff, events[0])
    ensures PassingInOrder(cutoff, events) <==> PassingInOrder(cutoff, events[1..])
  {
    var t := events[1..];
    if PassingInOrder(cutoff, events) {
      TailInOrder(cutoff, events);
    }
    if PassingInOrder(cutoff, t) {
      forall i, j | 0 <= i < j < |events| && Passes(cutoff, events[i]) && Passes(cutoff, events[j])
        ensures events[i].timestamp <= events[j].timestamp
      {
        assert events[i] == t[i - 1] && events[j] == t[j - 1];
      }
    }
  }

  lemma {:induction false} DeltaInOrder(cutoff: EventLogState, events: seq<Record>)
    ensures NonDecreasing(Delta(cutoff, events)) <==> PassingInOrder(cutoff, events)
  {
    if events != [] {
      var r, t := events[0], events[1..];
      DeltaInOrder(cutoff, t);
      DeltaMembers(cutoff, t);
      var tail := Delta(cutoff, t);
      assert forall i :: 0 <= i < |t| ==> t[i] == events[i + 1];
      if Passes(cutoff, r) {
        ConsInOrder(r, tail);
        FirstInOrder(cutoff, events);
      } else {
        assert Delta(cutoff, events) == tail;
        RestInOrder(cutoff, events);
      }
    }
  }

  /** Scanning one file, the persisted cutoffs never move back, whatever the chunk size, exactly
      when the records that pass the filter stand in time order in the file. */
  lemma FileCutoffsOrderedIffPassingAre(path: string, cutoff: EventLogState, events: seq<Record>)
    ensures NeverDropForAnySize(path, Delta(cutoff, events)) <==> PassingInOrder(cutoff, events)
  {
    CutoffsOrderedIffNewRecordsAre(path, Delta(cutoff, events));
    DeltaInOrder(cutoff, events);
  }

  /** A file on which it does move back. */
  lemma PersistedCutoffCanDropInsideAFile()
    ensures var file := [Record(10, 1, "a"), Record(7, 2, "b")];
            var start := EventLogState("log", 0, 5, NoDigest, "");
            var cutoffs := ChunkCutoffs("log", Delta(start, file), 1);
            |cutoffs| == 2 && cutoffs[1].timestamp < cutoffs[0].timestamp
  {
    var file := [Record(10, 1, "a"), Record(7, 2, "b")];
    DeltaAll(EventLogState("log", 0, 5, NoDigest, ""), file);
    assert ChunkCutoffs("log", file, 1, 2) == [];
    assert |ChunkCutoffs("log", file, 1, 1)| == 1;
  }
}
