/** Delivery across a crash: which of the records a channel reader emitted reach the syslog
    consumer's sender tasks, before the crash or after the restart. */
module Recovery {
  import opened Sequences
  import opened Records
  import opened Delivery
  import ChannelReader
  import SyslogConsumer
  import CheckpointStore
  import CheckpointMachine
  import opened CheckpointCutoffs
  import opened CheckpointRuns

  /** One life of the process: what the reader and the consumer of a log are wired with, and the
      ticks of the reader. */
  datatype Life = Life(reader: EventLogState, ticks: seq<ChannelReader.Tick>, cutoff: int)

  function Batches(l: Life): seq<seq<Record>> {
    ChannelReader.Sent(false, l.reader, l.ticks)
  }

  function Emitted(l: Life): seq<Record> {
    Flatten(Batches(l))
  }

  /** The events the reader's reads returned. */
  function Raw(l: Life): seq<Record> {
    ChannelReader.RawEvents(ChannelReader.AllTaken(false, l.ticks))
  }

  function ChunksOf(l: Life): seq<SyslogConsumer.Guarded> {
    Offered(l.cutoff, Batches(l))
  }

  /** How far the consumer got: chunks it has finished, what they attempted, and what the chunk
      it was at when the process died had attempted. */
  datatype Progress = Progress(sent: seq<seq<Record>>, extra: seq<Record>)

  /** A consumer that is not ready for the stream never gets anywhere; otherwise it has finished
      some chunks, each with a client, and has attempted part of the next. */
  ghost predicate Got(l: Life, p: Progress, clients: seq<bool>) {
    var k := |p.sent|;
    && k <= |ChunksOf(l)| && AllMade(clients)
    && SyslogConsumer.AllAttempts(p.sent, ChunksOf(l)[..k], clients)
    && (p.extra != [] ==>
          k < |ChunksOf(l)|
          && multiset(p.extra) <= multiset(SyslogConsumer.Newer(ChunksOf(l)[k].cutoff, ChunksOf(l)[k].records)))
    && (!Ready(l.cutoff, Batches(l)) ==> p == Progress([], []))
  }

  ghost predicate Attempted(p: Progress, r: Record) {
    r in Flatten(p.sent) || r in p.extra
  }

  /** The consumer's cutoff in memory. */
  function HeldCutoff(l: Life, k: nat): int
    requires k <= |ChunksOf(l)|
  {
    if k == 0 || ChunksOf(l)[k - 1].records == [] then l.cutoff else Last(ChunksOf(l)[k - 1].records).timestamp
  }

  /** The next life's reads take up what the last one's returned, except for a part at its
      beginning that is not newer than the reader's cutoff, and may go on. */
  ghost predicate ReadsAgain(before: Life, after: Life) {
    exists skipped: nat ::
      && skipped <= |Raw(before)| && Raw(before)[skipped..] <= Raw(after)
      && forall r :: r in Raw(before)[..skipped] ==> r.timestamp <= after.reader.timestamp
  }

  // ----- what is emitted

  lemma {:induction false} RunningMaximumMembers(cutoff: int, events: seq<Record>, n: nat, r: Record)
    requires n <= |events|
    ensures r in ChannelReader.RunningMaximum(cutoff, events, n)
            <==> exists i :: 0 <= i < n && events[i] == r && ChannelReader.IsRecord(cutoff, events, i)
  {
    hide ChannelReader.IsRecord;
    if n > 0 {
      RunningMaximumMembers(cutoff, events, n - 1, r);
    }
  }

  lemma EmittedMembers(l: Life, r: Record)
    ensures r in Emitted(l) <==>
            exists i :: 0 <= i < |Raw(l)| && Raw(l)[i] == r && ChannelReader.IsRecord(l.reader.timestamp, Raw(l), i)
  {
    ChannelReader.StreamOverRuns(false, l.reader, l.ticks);
    ChannelReader.KeptIsRunningMaximum(l.reader.timestamp, Raw(l));
    RunningMaximumMembers(l.reader.timestamp, Raw(l), |Raw(l)|, r);
  }

  /** What one life emitted the next emits again exactly if it is newer than the cutoff the
      reader then starts from. */
  lemma EmittedAgain(before: Life, after: Life, r: Record)
    requires ReadsAgain(before, after) && r in Emitted(before)
    ensures r in Emitted(after) <==> after.reader.timestamp < r.timestamp
  {
    hide Raw, ChannelReader.IsRecord;
    EmittedMembers(before, r);
    EmittedMembers(after, r);
    var was, raw, low := Raw(before), Raw(after), after.reader.timestamp;
    var i :| 0 <= i < |was| && was[i] == r && ChannelReader.IsRecord(before.reader.timestamp, was, i);
    var skipped: nat :| skipped <= |was| && was[skipped..] <= raw
      && forall q :: q in was[..skipped] ==> q.timestamp <= low;
    if low < r.timestamp {
      StillRecord(before.reader.timestamp, was, i, low, skipped, raw);
    }
    if r in Emitted(after) {
      var j :| 0 <= j < |raw| && raw[j] == r && ChannelReader.IsRecord(low, raw, j);
      RecordIsNewer(low, raw, j);
    }
  }

  lemma RecordIsNewer(cutoff: int, events: seq<Record>, i: nat)
    requires i < |events| && ChannelReader.IsRecord(cutoff, events, i)
    ensures cutoff < events[i].timestamp
  {
  }

  /** A running maximum stays one when the beginning is left out and the cutoff stays below. */
  lemma StillRecord(cutoff: int, was: seq<Record>, i: nat, low: int, skipped: nat, raw: seq<Record>)
    requires i < |was| && ChannelReader.IsRecord(cutoff, was, i) && low < was[i].timestamp
    requires skipped <= |was| && was[skipped..] <= raw
    requires forall q :: q in was[..skipped] ==> q.timestamp <= low
    ensures skipped <= i && i - skipped < |raw| && raw[i - skipped] == was[i]
    ensures ChannelReader.IsRecord(low, raw, i - skipped)
  {
    forall j | 0 <= j < skipped ensures was[j].timestamp <= low {
      assert was[..skipped][j] in was[..skipped];
    }
    var again := was[skipped..];
    forall j | 0 <= j <= i - skipped ensures raw[j] == was[skipped + j] {
      assert raw[j] == again[j];
    }
  }

  // ----- what is attempted

  lemma {:induction false} NewerMembers(cutoff: int, records: seq<Record>, r: Record)
    ensures r in SyslogConsumer.Newer(cutoff, records) <==> r in records && cutoff < r.timestamp
  {
    if records != [] {
      NewerMembers(cutoff, records[1..], r);
    }
  }

  lemma {:induction false} FlattenMembers(ss: seq<seq<Record>>, r: Record)
    ensures r in Flatten(ss) <==> exists m :: 0 <= m < |ss| && r in ss[m]
  {
    if ss != [] {
      FlattenMembers(ss[1..], r);
      assert forall m :: 0 <= m < |ss| - 1 ==> ss[1..][m] == ss[m + 1];
      assert Flatten(ss) == ss[0] + Flatten(ss[1..]);
      if m: nat :| m < |ss| && r in ss[m] && m > 0 {
        assert r in ss[1..][m - 1];
      }
    }
  }

  /** A finished chunk has attempted all it holds above the consumer's first cutoff. */
  lemma FinishedChunk(l: Life, p: Progress, clients: seq<bool>, m: nat, r: Record)
    requires Got(l, p, clients) && m < |p.sent|
    requires LetsThrough(l.cutoff, ChunksOf(l)[m])
    requires r in ChunksOf(l)[m].records && l.cutoff < r.timestamp
    ensures r in Flatten(p.sent)
  {
    hide LetsThrough;
    var g := ChunksOf(l)[m];
    assert SyslogConsumer.Attempts(p.sent[m], ChunksOf(l)[..|p.sent|][m], clients[m]);
    ChunkAttempts(l.cutoff, p.sent[m], g, clients[m]);
    NewerMembers(l.cutoff, g.records, r);
    assert r in multiset(p.sent[m]);
    FlattenMembers(p.sent, r);
  }

  lemma EarlierChunksAreOlder(ss: seq<seq<Record>>, k: nat, m: nat, q: Record, r: Record)
    requires Ascending(Flatten(ss)) && k < m < |ss| && q in ss[k] && r in ss[m]
    ensures q.timestamp < r.timestamp
  {
    var a, b := ss[..k + 1], ss[k + 1..];
    assert ss == a + b;
    FlattenConcat(a, b);
    SplitAscending(Flatten(a), Flatten(b));
    assert q in a[k] && r in b[m - k - 1];
    FlattenMembers(a, q);
    FlattenMembers(b, r);
  }

  /** What the consumer has not attempted is newer than the cutoff it holds. */
  lemma UnattemptedIsNewer(l: Life, p: Progress, clients: seq<bool>, r: Record)
    requires Got(l, p, clients) && r in Emitted(l) && l.cutoff < r.timestamp && !Attempted(p, r)
    ensures HeldCutoff(l, |p.sent|) < r.timestamp
  {
    var k := |p.sent|;
    if k > 0 {
      hide Got, LetsThrough;
      StreamRises(l.reader, l.ticks);
      assert Ready(l.cutoff, Batches(l)) && k <= |ChunksOf(l)| by { GotReady(l, p, clients); }
      OfferedStream(l.reader.timestamp, l.cutoff, Batches(l));
      var ss := SyslogConsumer.RecordsOf(ChunksOf(l));
      FlattenMembers(ss, r);
      var m: nat :| m < |ss| && r in ss[m];
      assert ChunksOf(l)[m] in ChunksOf(l);
      if m < k {
        FinishedChunk(l, p, clients, m, r);
        assert false;
      }
      if ss[k - 1] != [] {
        EarlierChunksAreOlder(ss, k - 1, m, Last(ss[k - 1]), r);
      }
    }
  }

  lemma GotReady(l: Life, p: Progress, clients: seq<bool>)
    requires Got(l, p, clients) && p.sent != []
    ensures Ready(l.cutoff, Batches(l)) && |p.sent| <= |ChunksOf(l)|
  {
  }

  /** In a life without a crash, a ready consumer attempts exactly what is emitted above its
      first cutoff. */
  lemma FullLife(l: Life, sent: seq<seq<Record>>, clients: seq<bool>, r: Record)
    requires Ready(l.cutoff, Batches(l)) && AllMade(clients)
    requires SyslogConsumer.AllAttempts(sent, ChunksOf(l), clients)
    ensures r in Flatten(sent) <==> r in Emitted(l) && l.cutoff < r.timestamp
  {
    hide SyslogConsumer.AllAttempts, LetsThrough, AllMade;
    StreamRises(l.reader, l.ticks);
    OfferedStream(l.reader.timestamp, l.cutoff, Batches(l));
    AttemptedIffClients(l.cutoff, sent, ChunksOf(l), clients);
    NewerMembers(l.cutoff, Emitted(l), r);
    assert r in Flatten(sent) <==> r in multiset(Flatten(sent));
  }

  /** What a life without a crash attempts, with every client made. */
  ghost predicate Served(l: Life, sent: seq<seq<Record>>) {
    exists clients ::
      SyslogConsumer.AllAttempts(sent, ChunksOf(l), clients) && AllMade(clients)
  }

  // ----- across the crash

  /** A record emitted before the crash is attempted in one life or the other exactly when it was
      attempted before the crash or is newer than the cutoff the reader restarts from. */
  lemma AttemptedAcrossCrash(
    before: Life, p: Progress, clients: seq<bool>,
    after: Life, sent: seq<seq<Record>>, r: Record)
    requires Got(before, p, clients) && ReadsAgain(before, after)
    requires after.cutoff <= HeldCutoff(before, |p.sent|)
    requires Ready(after.cutoff, Batches(after)) && Served(after, sent)
    requires r in Emitted(before) && before.cutoff < r.timestamp
    ensures Attempted(p, r) || r in Flatten(sent)
            <==> Attempted(p, r) || after.reader.timestamp < r.timestamp
  {
    hide Got, ReadsAgain, Ready, AllMade, SyslogConsumer.AllAttempts, Attempted;
    EmittedAgain(before, after, r);
    var more :| SyslogConsumer.AllAttempts(sent, ChunksOf(after), more) && AllMade(more);
    FullLife(after, sent, more, r);
    if !Attempted(p, r) {
      UnattemptedIsNewer(before, p, clients, r);
    }
  }

  /** Emitted above the consumer's first cutoff, not attempted, and not to be emitted again by a
      reader that restarts from the given cutoff. */
  ghost predicate Lost(l: Life, p: Progress, durable: int, r: Record) {
    r in Emitted(l) && l.cutoff < r.timestamp && !Attempted(p, r) && r.timestamp <= durable
  }

  ghost predicate NothingLost(l: Life, p: Progress, durable: int) {
    forall r :: !Lost(l, p, durable, r)
  }

  /** What was emitted between the cutoff the consumer holds and the one the reader restarts from
      was being attempted when the process died. */
  ghost predicate GapAttempted(l: Life, p: Progress, durable: int)
    requires |p.sent| <= |ChunksOf(l)|
  {
    forall r :: r in Emitted(l) && HeldCutoff(l, |p.sent|) < r.timestamp <= durable ==> r in p.extra
  }

  lemma SentFromChunk(l: Life, p: Progress, clients: seq<bool>, m: nat, r: Record)
    requires Got(l, p, clients) && m < |p.sent| && r in p.sent[m]
    ensures |p.sent| <= |ChunksOf(l)| && r in ChunksOf(l)[m].records
  {
    var g := ChunksOf(l)[m];
    assert SyslogConsumer.Attempts(p.sent[m], ChunksOf(l)[..|p.sent|][m], clients[m]);
    assert r in multiset(p.sent[m]);
    assert r in multiset(SyslogConsumer.Newer(g.cutoff, g.records));
    NewerMembers(g.cutoff, g.records, r);
  }

  lemma ChunkNotEmpty(cutoff: int, g: SyslogConsumer.Guarded)
    requires LetsThrough(cutoff, g)
    ensures g.records != [] && exists r :: r in g.records && cutoff < r.timestamp
  {
    var r := SyslogConsumer.Newer(cutoff, g.records)[0];
    assert r in SyslogConsumer.Newer(cutoff, g.records);
    NewerMembers(cutoff, g.records, r);
  }

  lemma WithinChunk(ss: seq<seq<Record>>, m: nat, r: Record)
    requires Ascending(Flatten(ss)) && m < |ss| && r in ss[m]
    ensures r.timestamp <= Last(ss[m]).timestamp
  {
    var a, b := ss[..m], ss[m..];
    assert ss == a + b;
    FlattenConcat(a, b);
    SplitAscending(Flatten(a), Flatten(b));
    SplitAscending(b[0], Flatten(b[1..]));
    var k :| 0 <= k < |ss[m]| && ss[m][k] == r;
  }

  /** A chunk that was reached ends above the cutoff held before it and at its last record. */
  lemma EndsOf(l: Life, p: Progress, clients: seq<bool>, m: nat)
    requires Got(l, p, clients) && m < |p.sent|
    ensures |p.sent| <= |ChunksOf(l)| && ChunksOf(l)[m].records != []
    ensures HeldCutoff(l, m) < Last(ChunksOf(l)[m].records).timestamp == HeldCutoff(l, m + 1)
    ensures forall r :: r in ChunksOf(l)[m].records ==> r.timestamp <= HeldCutoff(l, m + 1)
  {
    hide Got, LetsThrough;
    GotReady(l, p, clients);
    StreamRises(l.reader, l.ticks);
    OfferedStream(l.reader.timestamp, l.cutoff, Batches(l));
    var chunks := ChunksOf(l);
    var ss := SyslogConsumer.RecordsOf(chunks);
    assert chunks[m] in chunks;
    ChunkNotEmpty(l.cutoff, chunks[m]);
    forall r: Record | r in ss[m] ensures r.timestamp <= Last(ss[m]).timestamp {
      WithinChunk(ss, m, r);
    }
    if m > 0 {
      assert chunks[m - 1] in chunks;
      ChunkNotEmpty(l.cutoff, chunks[m - 1]);
      EarlierChunksAreOlder(ss, m - 1, m, Last(ss[m - 1]), Last(ss[m]));
    }
  }

  /** The cutoff held rises with every chunk passed. */
  lemma {:induction false} HeldRises(l: Life, p: Progress, clients: seq<bool>, m: nat, k: nat)
    requires Got(l, p, clients) && m <= k <= |p.sent|
    ensures |p.sent| <= |ChunksOf(l)| && HeldCutoff(l, m) <= HeldCutoff(l, k)
    decreases k
  {
    hide Got, ChunksOf, HeldCutoff;
    GotSize(l, p, clients);
    if m < k {
      HeldRises(l, p, clients, m, k - 1);
      EndsOf(l, p, clients, k - 1);
    }
  }

  lemma GotSize(l: Life, p: Progress, clients: seq<bool>)
    requires Got(l, p, clients)
    ensures |p.sent| <= |ChunksOf(l)| && HeldCutoff(l, 0) == l.cutoff
  {
  }

  lemma SentIsOlder(l: Life, p: Progress, clients: seq<bool>, r: Record)
    requires Got(l, p, clients) && r in Flatten(p.sent)
    ensures |p.sent| <= |ChunksOf(l)| && r.timestamp <= HeldCutoff(l, |p.sent|)
  {
    hide Got, ChunksOf, HeldCutoff;
    FlattenMembers(p.sent, r);
    var m: nat :| m < |p.sent| && r in p.sent[m];
    SentFromChunk(l, p, clients, m, r);
    EndsOf(l, p, clients, m);
    HeldRises(l, p, clients, m + 1, |p.sent|);
  }

  /** A crash loses nothing exactly when everything emitted between the two cutoffs was being
      attempted at that moment. */
  lemma NothingLostIff(l: Life, p: Progress, clients: seq<bool>, durable: int)
    requires Got(l, p, clients)
    ensures |p.sent| <= |ChunksOf(l)|
    ensures NothingLost(l, p, durable) <==> GapAttempted(l, p, durable)
  {
    hide Emitted, HeldCutoff, ChunksOf;
    GotSize(l, p, clients);
    HeldRises(l, p, clients, 0, |p.sent|);
    var held := HeldCutoff(l, |p.sent|);
    if NothingLost(l, p, durable) {
      forall r | r in Emitted(l) && held < r.timestamp <= durable ensures r in p.extra {
        assert !Lost(l, p, durable, r);
        if r in Flatten(p.sent) {
          SentIsOlder(l, p, clients, r);
        }
      }
    }
    if GapAttempted(l, p, durable) {
      forall r ensures !Lost(l, p, durable, r) {
        if Lost(l, p, durable, r) {
          UnattemptedIsNewer(l, p, clients, r);
        }
      }
    }
  }

  // ----- with both checkpoints

  /** A run of a checkpoint in which a log is wired after some acts, at the time now, and which
      goes on until the process dies. */
  datatype Era = Era(start: World, early: seq<Act>, now: int, late: seq<Act>)

  ghost predicate Runs(maxUpdates: nat, e: Era, name: string) {
    && AtStart(maxUpdates, e.start)
    && Acts(maxUpdates, e.start, e.early) && AllInOrder(maxUpdates, e.start, e.early, name)
    && CanAct(After(maxUpdates, e.start, e.early), Wire(name, e.now))
    && Acts(maxUpdates, AtWiring(maxUpdates, e, name), e.late)
    // the process has not died meanwhile, or the log would not be wired any more
    && (forall a :: a in e.late ==> Leaves(a, name)) && name in AtDeath(maxUpdates, e, name).held
  }

  ghost function AtWiring(maxUpdates: nat, e: Era, name: string): World
    requires Acts(maxUpdates, e.start, e.early)
    requires CanAct(After(maxUpdates, e.start, e.early), Wire(name, e.now))
  {
    Do(maxUpdates, After(maxUpdates, e.start, e.early), Wire(name, e.now))
  }

  ghost function AtDeath(maxUpdates: nat, e: Era, name: string): World
    requires Acts(maxUpdates, e.start, e.early)
    requires CanAct(After(maxUpdates, e.start, e.early), Wire(name, e.now))
    requires Acts(maxUpdates, AtWiring(maxUpdates, e, name), e.late)
  {
    After(maxUpdates, AtWiring(maxUpdates, e, name), e.late)
  }

  /** The log's states on disk when the process dies. */
  ghost function OnDisk(maxUpdates: nat, e: Era, name: string): CheckpointStore.States
    requires Runs(maxUpdates, e, name)
  {
    CheckpointMachine.Contents(AtDeath(maxUpdates, e, name).store.main)
  }

  /** Nothing but the channel reader, or but the syslog consumer, persists states of the log. */
  ghost predicate OnlyReads(acts: seq<Act>, name: string) {
    forall a :: a in acts ==>
      (a.Other? ==> a.s.name != name)
      && (a.Packets? || a.Scan? || a.Emit? || a.Chunk? ==> a.name != name)
  }

  ghost predicate OnlyChunks(acts: seq<Act>, name: string) {
    forall a :: a in acts ==>
      (a.Other? ==> a.s.name != name)
      && (a.Packets? || a.Scan? || a.Emit? || a.Read? ==> a.name != name)
  }

  function ReadsIn(acts: seq<Act>, name: string): seq<ChannelReader.ReadResult> {
    if acts == [] then []
    else
      (if acts[0].Read? && acts[0].name == name then [acts[0].result] else []) + ReadsIn(acts[1..], name)
  }

  function ChunksIn(acts: seq<Act>, name: string): seq<seq<Record>> {
    if acts == [] then []
    else
      (if acts[0].Chunk? && acts[0].name == name then [acts[0].records] else []) + ChunksIn(acts[1..], name)
  }

  /** The cutoff after chunks that come one after the other. */
  function AfterChunks(cutoff: int, chunks: seq<seq<Record>>): int
    decreases |chunks|
  {
    if chunks == [] then cutoff
    else
      var first := chunks[0];
      AfterChunks(
        if first == [] || cutoff >= Last(first).timestamp then cutoff else Last(first).timestamp, chunks[1..])
  }

  lemma EraKeeps(maxUpdates: nat, e: Era, name: string)
    requires Runs(maxUpdates, e, name)
    ensures var base, w := CheckpointMachine.Contents(e.start.store.main), AtWiring(maxUpdates, e, name);
            CheckpointMachine.Inv(maxUpdates, base, w.store) && Wired(w) && Ahead(base, w, name)
            && name in w.held
  {
    hide CheckpointMachine.Inv, Wired, Ahead, AllInOrder, Acts, CheckpointMachine.Contents;
    var base := CheckpointMachine.Contents(e.start.store.main);
    StartKeeps(maxUpdates, e.start, name);
    RunNeverBack(maxUpdates, base, e.start, e.early, name);
    var w := After(maxUpdates, e.start, e.early);
    ActKeepsWired(maxUpdates, base, w, Wire(name, e.now));
    ActKeepsAhead(maxUpdates, base, w, Wire(name, e.now), name);
  }

  /** The disk is not ahead of the reader or consumer when the process dies. */
  lemma DiskNotAhead(maxUpdates: nat, e: Era, name: string)
    requires Runs(maxUpdates, e, name) && (OnlyReads(e.late, name) || OnlyChunks(e.late, name))
    requires name in OnDisk(maxUpdates, e, name)
    ensures OnDisk(maxUpdates, e, name)[name].timestamp <= AtDeath(maxUpdates, e, name).held[name].timestamp
  {
    hide CheckpointMachine.Inv, Wired, Ahead, Acts, CheckpointMachine.Contents;
    var base, w := CheckpointMachine.Contents(e.start.store.main), AtWiring(maxUpdates, e, name);
    EraKeeps(maxUpdates, e, name);
    OwnLogInOrder(maxUpdates, w, e.late, name);
    RunNeverBack(maxUpdates, base, w, e.late, name);
    DurableNotAhead(maxUpdates, base, AtDeath(maxUpdates, e, name), name);
  }

  /** The state of a log held by its channel reader after one act. */
  lemma ReadFollows(maxUpdates: nat, w: World, a: Act, name: string)
    requires Wired(w) && CanAct(w, a) && Leaves(a, name) && OnlyReads([a], name)
    requires name in w.held && name in Do(maxUpdates, w, a).held
    ensures Do(maxUpdates, w, a).held[name] == ChannelReader.FinalState(w.held[name], ReadsIn([a], name))
  {
    assert a in [a] && [a][1..] == [];
    if a.Read? && a.name == name {
      assert [a.result][1..] == [];
    } else if Simple(a) {
      NamedAfterLog(w, a);
    } else if a.Emit? {
      assert Named(w.todo[a.name], a.name);
    }
  }

  lemma NamedAfterLog(w: World, a: Act)
    requires Wired(w) && CanAct(w, a) && Simple(a)
    ensures forall s :: s in Saved(w.held[a.name], a) ==> s.name == a.name
  {
  }

  lemma ChunkFollows(maxUpdates: nat, w: World, a: Act, name: string)
    requires Wired(w) && CanAct(w, a) && Leaves(a, name) && OnlyChunks([a], name)
    requires name in w.held && name in Do(maxUpdates, w, a).held
    ensures Do(maxUpdates, w, a).held[name].timestamp == AfterChunks(w.held[name].timestamp, ChunksIn([a], name))
  {
    assert a in [a] && [a][1..] == [];
    if a.Chunk? && a.name == name {
      assert [a.records][1..] == [];
    } else if Simple(a) {
      NamedAfterLog(w, a);
    } else if a.Emit? {
      assert Named(w.todo[a.name], a.name);
    }
  }

  lemma StillHeld(maxUpdates: nat, base: CheckpointStore.States, w: World, acts: seq<Act>, name: string)
    requires CheckpointMachine.Inv(maxUpdates, base, w.store) && Wired(w) && Acts(maxUpdates, w, acts)
    requires (forall a :: a in acts ==> Leaves(a, name)) && name in After(maxUpdates, w, acts).held
    ensures name in w.held
  {
    if name !in w.held {
      RunOfUnwired(maxUpdates, base, w, acts, name);
    }
  }

  lemma {:induction false} FinalStateConcat(
    state: EventLogState, a: seq<ChannelReader.ReadResult>, b: seq<ChannelReader.ReadResult>)
    ensures ChannelReader.FinalState(state, a + b)
            == ChannelReader.FinalState(ChannelReader.FinalState(state, a), b)
    decreases |a|
  {
    if a == [] {
      assert a + b == b;
    } else {
      assert (a + b)[1..] == a[1..] + b;
      FinalStateConcat(ChannelReader.StateAfter(state, a[0].events, a[0].bookmark), a[1..], b);
    }
  }

  lemma {:induction false} AfterChunksConcat(cutoff: int, a: seq<seq<Record>>, b: seq<seq<Record>>)
    ensures AfterChunks(cutoff, a + b) == AfterChunks(AfterChunks(cutoff, a), b)
    decreases |a|
  {
    if a == [] {
      assert a + b == b;
    } else {
      assert (a + b)[1..] == a[1..] + b;
      AfterChunksConcat(
        if a[0] == [] || cutoff >= Last(a[0]).timestamp then cutoff else Last(a[0]).timestamp, a[1..], b);
    }
  }

  /** While a log is wired, what its channel reader holds follows from its reads. */
  lemma {:induction false} ReaderFollows(
    maxUpdates: nat, base: CheckpointStore.States, w: World, acts: seq<Act>, name: string)
    requires CheckpointMachine.Inv(maxUpdates, base, w.store) && Wired(w) && Acts(maxUpdates, w, acts)
    requires (forall a :: a in acts ==> Leaves(a, name)) && OnlyReads(acts, name)
    requires name in After(maxUpdates, w, acts).held
    ensures name in w.held
    ensures After(maxUpdates, w, acts).held[name] == ChannelReader.FinalState(w.held[name], ReadsIn(acts, name))
    decreases |acts|
  {
    hide Do, CanAct, Wired, CheckpointMachine.Inv, Leaves;
    StillHeld(maxUpdates, base, w, acts, name);
    if acts != [] {
      var a, rest := acts[0], acts[1..];
      var v := Do(maxUpdates, w, a);
      assert a in acts && forall b :: b in rest ==> b in acts;
      ActKeepsWired(maxUpdates, base, w, a);
      ReaderFollows(maxUpdates, base, v, rest, name);
      ReadFollows(maxUpdates, w, a, name);
      FinalStateConcat(w.held[name], ReadsIn([a], name), ReadsIn(rest, name));
      assert [a][1..] == [];
      assert ReadsIn(acts, name) == ReadsIn([a], name) + ReadsIn(rest, name);
    }
  }

  /** And what its syslog consumer holds follows from the chunks it has passed. */
  lemma {:induction false} ConsumerFollows(
    maxUpdates: nat, base: CheckpointStore.States, w: World, acts: seq<Act>, name: string)
    requires CheckpointMachine.Inv(maxUpdates, base, w.store) && Wired(w) && Acts(maxUpdates, w, acts)
    requires (forall a :: a in acts ==> Leaves(a, name)) && OnlyChunks(acts, name)
    requires name in After(maxUpdates, w, acts).held
    ensures name in w.held
    ensures After(maxUpdates, w, acts).held[name].timestamp
            == AfterChunks(w.held[name].timestamp, ChunksIn(acts, name))
    decreases |acts|
  {
    hide Do, CanAct, Wired, CheckpointMachine.Inv, Leaves;
    StillHeld(maxUpdates, base, w, acts, name);
    if acts != [] {
      var a, rest := acts[0], acts[1..];
      var v := Do(maxUpdates, w, a);
      assert a in acts && forall b :: b in rest ==> b in acts;
      ActKeepsWired(maxUpdates, base, w, a);
      ConsumerFollows(maxUpdates, base, v, rest, name);
      ChunkFollows(maxUpdates, w, a, name);
      AfterChunksConcat(w.held[name].timestamp, ChunksIn([a], name), ChunksIn(rest, name));
      assert [a][1..] == [];
      assert ChunksIn(acts, name) == ChunksIn([a], name) + ChunksIn(rest, name);
    }
  }

  /** The chunks passed take the consumer to the cutoff it holds. */
  lemma {:induction false} PassedChunks(l: Life, p: Progress, clients: seq<bool>, k: nat)
    requires Got(l, p, clients) && k <= |p.sent|
    ensures |p.sent| <= |ChunksOf(l)|
    ensures AfterChunks(l.cutoff, SyslogConsumer.RecordsOf(ChunksOf(l)[..k])) == HeldCutoff(l, k)
    decreases k
  {
    hide Got;
    GotSize(l, p, clients);
    if k > 0 {
      PassedChunks(l, p, clients, k - 1);
      EndsOf(l, p, clients, k - 1);
      var init, last := SyslogConsumer.RecordsOf(ChunksOf(l)[..k - 1]), ChunksOf(l)[k - 1].records;
      AfterChunksConcat(l.cutoff, init, [last]);
      assert [last][1..] == [];
      assert SyslogConsumer.RecordsOf(ChunksOf(l)[..k]) == init + [last];
    }
  }

  /** The life before the crash is the one the two runs tell of. */
  ghost predicate Lived(maxUpdates: nat, readers: Era, consumers: Era, name: string, l: Life, p: Progress) {
    && Runs(maxUpdates, readers, name) && Runs(maxUpdates, consumers, name)
    && OnlyReads(readers.late, name) && OnlyChunks(consumers.late, name)
    && name in AtWiring(maxUpdates, readers, name).held
    && l.reader == AtWiring(maxUpdates, readers, name).held[name]
    && ReadsIn(readers.late, name) == ChannelReader.AllTaken(false, l.ticks)
    && name in AtWiring(maxUpdates, consumers, name).held
    && l.cutoff == AtWiring(maxUpdates, consumers, name).held[name].timestamp
    && |p.sent| <= |ChunksOf(l)|
    && ChunksIn(consumers.late, name) == SyslogConsumer.RecordsOf(ChunksOf(l)[..|p.sent|])
  }

  /** The next life starts from what is on disk. */
  ghost predicate Resumed(maxUpdates: nat, readers: Era, consumers: Era, name: string, l: Life) {
    && Runs(maxUpdates, readers, name) && Runs(maxUpdates, consumers, name)
    && name in OnDisk(maxUpdates, readers, name) && l.reader == OnDisk(maxUpdates, readers, name)[name]
    && name in OnDisk(maxUpdates, consumers, name)
    && l.cutoff == OnDisk(maxUpdates, consumers, name)[name].timestamp
  }

  lemma CutoffsAtDeath(
    maxUpdates: nat, readers: Era, consumers: Era, name: string,
    before: Life, p: Progress, clients: seq<bool>, after: Life)
    requires Got(before, p, clients)
    requires Lived(maxUpdates, readers, consumers, name, before, p)
    requires Resumed(maxUpdates, readers, consumers, name, after)
    ensures after.reader.timestamp
            <= ChannelReader.FinalState(before.reader, ChannelReader.AllTaken(false, before.ticks)).timestamp
    ensures |p.sent| <= |ChunksOf(before)| && after.cutoff <= HeldCutoff(before, |p.sent|)
  {
    hide Got, Acts, AllInOrder, CanAct, Do, OnlyReads, OnlyChunks, Leaves, Wired, Ahead, CheckpointMachine.Inv;
    EraKeeps(maxUpdates, readers, name);
    EraKeeps(maxUpdates, consumers, name);
    DiskNotAhead(maxUpdates, readers, name);
    DiskNotAhead(maxUpdates, consumers, name);
    var rw, cw := AtWiring(maxUpdates, readers, name), AtWiring(maxUpdates, consumers, name);
    ReaderFollows(maxUpdates, CheckpointMachine.Contents(readers.start.store.main), rw, readers.late, name);
    ConsumerFollows(maxUpdates, CheckpointMachine.Contents(consumers.start.store.main), cw, consumers.late, name);
    PassedChunks(before, p, clients, |p.sent|);
  }

  /** The reader and the consumer of a log run, each with a checkpoint of its own, until the
      process dies, whatever their workers had written by then; the next life is wired with what
      is on disk. Then the reader's durable cutoff is not above the state its reads had led to;
      the consumer returns from the new stream exactly when it is ready for it; it then makes up
      for exactly those of the unattempted records that are newer than the durable cutoff; and
      nothing is lost exactly when what was emitted between the cutoff the consumer had reached
      and the reader's durable one was being attempted when the process died. */
  lemma AttemptedAfterRestart(
    name: string, maxUpdates: nat, readers: Era, consumers: Era,
    before: Life, p: Progress, clients: seq<bool>,
    after: Life, sent: seq<seq<Record>>)
    requires Lived(maxUpdates, readers, consumers, name, before, p) && Got(before, p, clients)
    requires Resumed(maxUpdates, readers, consumers, name, after)
    requires ReadsAgain(before, after) && Served(after, sent)
    ensures var durable := OnDisk(maxUpdates, readers, name)[name].timestamp;
            durable
            <= ChannelReader.FinalState(before.reader, ChannelReader.AllTaken(false, before.ticks)).timestamp
            && (AllReturn(after.cutoff, Batches(after)) <==> Ready(after.cutoff, Batches(after)))
            && (Ready(after.cutoff, Batches(after)) ==>
                  forall r :: r in Emitted(before) && before.cutoff < r.timestamp ==>
                    (Attempted(p, r) || r in Flatten(sent) <==> Attempted(p, r) || durable < r.timestamp))
            && (NothingLost(before, p, durable) <==> GapAttempted(before, p, durable))
  {
    hide Runs, Got, ReadsAgain, Ready, AllReturn, Served, Attempted;
    hide Emitted, GapAttempted, NothingLost, HeldCutoff;
    CutoffsAtDeath(maxUpdates, readers, consumers, name, before, p, clients, after);
    NothingLostIff(before, p, clients, after.reader.timestamp);
    StreamRises(after.reader, after.ticks);
    ReturnsIffReady(after.reader.timestamp, after.cutoff, Batches(after));
    if Ready(after.cutoff, Batches(after)) {
      forall r | r in Emitted(before) && before.cutoff < r.timestamp
        ensures Attempted(p, r) || r in Flatten(sent)
                <==> Attempted(p, r) || after.reader.timestamp < r.timestamp
      {
        AttemptedAcrossCrash(before, p, clients, after, sent, r);
      }
    }
  }
}
