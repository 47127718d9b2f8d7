/** A crash that loses a record: the reader's new cutoff is on disk, and the consumer has not
    come to the record. */
module CrashLoss {
  import opened Sequences
  import opened Records
  import opened CheckpointStore
  import opened CheckpointMachine
  import opened CheckpointCutoffs
  import opened CheckpointRuns
  import opened Recovery
  import ChannelReader
  import Delivery
  import SyslogConsumer

  lemma OneSnapshot(h: EventLogState)
    ensures IsSnapshot([h], map[h.name := h])
  {
    assert Names([h]) == [h.name];
    assert [h][..0] == [];
    assert Fold(map[], [h][..0]) == map[];
  }

  /** The checkpoint's process is down and its file holds h. */
  function Down(h: EventLogState): World {
    World(State(Pc.Down, map[], 0, [], Complete([h]), Absent, [], 0, false), map[], map[])
  }

  /** The checkpoint is up, with nothing to save. */
  function Idling(h: EventLogState): World {
    World(State(Select, map[h.name := h], 0, [], Complete([h]), Absent, [], 0, false), map[], map[])
  }

  function Boot(h: EventLogState): seq<Act> {
    [Store(Start), Store(CreateOk), Store(WriteOk([h])), Store(RenameOk)]
  }

  lemma ThenActs(w: World, a: Act, rest: seq<Act>)
    requires CanAct(w, a) && Acts(1, Do(1, w, a), rest)
    ensures Acts(1, w, [a] + rest) && After(1, w, [a] + rest) == After(1, Do(1, w, a), rest)
  {
    assert ([a] + rest)[1..] == rest;
  }

  lemma Boots(h: EventLogState)
    ensures AtStart(1, Down(h)) && Acts(1, Down(h), Boot(h)) && After(1, Down(h), Boot(h)) == Idling(h)
  {
    OneSnapshot(h);
    hide IsSnapshot, Acts, After;
    var s := Down(h).store;
    var w1 := World(s.(pc := Booting(Creating), states := map[h.name := h]), map[], map[]);
    assert Load([h]) == map[h.name := h] by { SnapshotLoads([h], map[h.name := h]); }
    assert Do(1, Down(h), Store(Start)) == w1;
    var w2 := w1.(store := w1.store.(pc := Booting(Writing), temp := Broken));
    assert Do(1, w1, Store(CreateOk)) == w2;
    var w3 := w2.(store := w2.store.(pc := Booting(Renaming), temp := Complete([h])));
    assert Do(1, w2, Store(WriteOk([h]))) == w3;
    assert Do(1, w3, Store(RenameOk)) == Idling(h);
    assert Acts(1, Idling(h), []) && After(1, Idling(h), []) == Idling(h) by { NoActs(Idling(h)); }
    ThenActs(w3, Store(RenameOk), []);
    ThenActs(w2, Store(WriteOk([h])), [Store(RenameOk)] + []);
    ThenActs(w1, Store(CreateOk), [Store(WriteOk([h]))] + ([Store(RenameOk)] + []));
    ThenActs(Down(h), Store(Start), [Store(CreateOk)] + ([Store(WriteOk([h]))] + ([Store(RenameOk)] + [])));
    assert [Store(Start)] + ([Store(CreateOk)] + ([Store(WriteOk([h]))] + ([Store(RenameOk)] + []))) == Boot(h);
  }

  lemma NoActs(w: World)
    ensures Acts(1, w, []) && After(1, w, []) == w
  {
  }

  function Result(r: Record): ChannelReader.ReadResult {
    ChannelReader.ReadResult([r], ChannelReader.EOF, "")
  }

  /** What the reader that held h holds after reading r. */
  function HeldAfter(h: EventLogState, r: Record): EventLogState {
    h.(recordNumber := r.recordId, timestamp := r.timestamp, bookmark := "")
  }

  lemma ReadsNewer(h: EventLogState, r: Record)
    requires h.timestamp < r.timestamp
    ensures ChannelReader.Kept(h.timestamp, [r]) == [r]
    ensures ChannelReader.StateAfter(h, [r], "") == HeldAfter(h, r)
  {
    assert [r][1..] == [];
  }

  /** The reader's batch is taken, and its state reaches the disk. */
  function Saving(h: EventLogState, r: Record): seq<Act> {
    [Act.Read(h.name, Result(r)), Store(Receive), Store(CreateOk), Store(WriteOk([HeldAfter(h, r)])), Store(RenameOk)]
  }

  function WiredWith(h: EventLogState): World {
    Idling(h).(held := map[h.name := h])
  }

  function SavedNewer(h: EventLogState, r: Record): World {
    var g := HeldAfter(h, r);
    World(State(Renamed(false), map[h.name := g], 1, [], Complete([g]), Absent, [g], 1, false), map[h.name := g], map[])
  }

  lemma Saves(h: EventLogState, r: Record)
    requires h.timestamp < r.timestamp
    ensures Acts(1, WiredWith(h), Saving(h, r)) && After(1, WiredWith(h), Saving(h, r)) == SavedNewer(h, r)
  {
    ReadsNewer(h, r);
    var g := HeldAfter(h, r);
    OneSnapshot(g);
    hide IsSnapshot, Acts, After;
    var read := Act.Read(h.name, Result(r));
    var w0 := WiredWith(h);
    var w1 := World(w0.store.(save := [g]), map[h.name := g], map[]);
    assert Saved(h, read) == [g];
    assert Do(1, w0, read) == w1;
    var w2 := w1.(store := w1.store.(
      pc := Flushing(Creating, false), states := map[h.name := g], numUpdates := 1, save := [], accepted := [g]));
    assert Do(1, w1, Store(Receive)) == w2;
    var w3 := w2.(store := w2.store.(pc := Flushing(Writing, false), temp := Broken));
    assert Do(1, w2, Store(CreateOk)) == w3;
    var w4 := w3.(store := w3.store.(pc := Flushing(Renaming, false), temp := Complete([g])));
    assert Do(1, w3, Store(WriteOk([g]))) == w4;
    assert Do(1, w4, Store(RenameOk)) == SavedNewer(h, r);
    NoActs(SavedNewer(h, r));
    ThenActs(w4, Store(RenameOk), []);
    ThenActs(w3, Store(WriteOk([g])), [Store(RenameOk)] + []);
    ThenActs(w2, Store(CreateOk), [Store(WriteOk([g]))] + ([Store(RenameOk)] + []));
    ThenActs(w1, Store(Receive), [Store(CreateOk)] + ([Store(WriteOk([g]))] + ([Store(RenameOk)] + [])));
    ThenActs(w0, read,
             [Store(Receive)] + ([Store(CreateOk)] + ([Store(WriteOk([g]))] + ([Store(RenameOk)] + []))));
    assert [read] + ([Store(Receive)] + ([Store(CreateOk)] + ([Store(WriteOk([g]))] + ([Store(RenameOk)] + []))))
        == Saving(h, r);
  }

  function Readers(h: EventLogState, r: Record): Era {
    Era(Down(h), Boot(h), 0, Saving(h, r))
  }

  /** The consumer is only wired. */
  function Consumers(h: EventLogState): Era {
    Era(Down(h), Boot(h), 0, [])
  }

  lemma ReadersRun(h: EventLogState, r: Record)
    requires h.timestamp < r.timestamp
    ensures Runs(1, Readers(h, r), h.name)
    ensures AtWiring(1, Readers(h, r), h.name) == WiredWith(h) && AtDeath(1, Readers(h, r), h.name) == SavedNewer(h, r)
  {
    Boots(h);
    Saves(h, r);
    OwnLogInOrder(1, Down(h), Boot(h), h.name);
  }

  lemma ConsumersRun(h: EventLogState)
    ensures Runs(1, Consumers(h), h.name)
    ensures AtWiring(1, Consumers(h), h.name) == AtDeath(1, Consumers(h), h.name) == WiredWith(h)
  {
    Boots(h);
    NoActs(WiredWith(h));
    OwnLogInOrder(1, Down(h), Boot(h), h.name);
  }

  function Before(h: EventLogState, r: Record): Life {
    Life(h, [ChannelReader.Tick(true, true, [Result(r)])], h.timestamp)
  }

  function AfterCrash(h: EventLogState, r: Record): Life {
    Life(HeldAfter(h, r), [], h.timestamp)
  }

  lemma OneRead(h: EventLogState, r: Record)
    requires h.timestamp < r.timestamp
    ensures ChannelReader.AllTaken(false, Before(h, r).ticks) == [Result(r)]
    ensures Raw(Before(h, r)) == [r] && Batches(Before(h, r)) == [[r]] && Emitted(Before(h, r)) == [r]
  {
    var tick := ChannelReader.Tick(true, true, [Result(r)]);
    assert [tick][1..] == [] && [Result(r)][1..] == [];
    assert ChannelReader.Taken(false, tick) == [Result(r)];
    assert ChannelReader.RawEvents([Result(r)]) == [r] + ChannelReader.RawEvents([]);
    Delivery.SentByOneTick(h, r);
    FlattenOne([r]);
  }

  /** For every log, state on disk and newer record: all that AttemptedAfterRestart asks for can
      hold together and the record be lost. Both checkpoints are booted from that state, the
      reader reads the record and its cutoff is flushed, the process dies before the consumer
      has begun, and the next life has nothing to read. */
  lemma RecordCanBeLost(h: EventLogState, r: Record)
    requires h.timestamp < r.timestamp
    ensures var before, after, p := Before(h, r), AfterCrash(h, r), Progress([], []);
            Runs(1, Readers(h, r), h.name) && Runs(1, Consumers(h), h.name)
            && Got(before, p, []) && ReadsAgain(before, after)
            && Lived(1, Readers(h, r), Consumers(h), h.name, before, p)
            && Resumed(1, Readers(h, r), Consumers(h), h.name, after)
            && Served(after, [])
            && Delivery.Ready(after.cutoff, Batches(after))
            && Lost(before, p, OnDisk(1, Readers(h, r), h.name)[h.name].timestamp, r)
  {
    ReadersRun(h, r);
    ConsumersRun(h);
    OneRead(h, r);
    hide Runs, Acts, After, Delivery.Offered, Delivery.Ready;
    var before, after, p := Before(h, r), AfterCrash(h, r), Progress([], []);
    OnDiskIs(h, r);
    LivedIs(h, r);
    assert Raw(before)[1..] == [] <= Raw(after) && Raw(before)[..1] == [r];
    assert ReadsAgain(before, after);
    NothingGot(before);
    NothingSent(after);
    assert SyslogConsumer.AllAttempts([], ChunksOf(after), []) && Delivery.AllMade([]);
  }

  lemma OnDiskIs(h: EventLogState, r: Record)
    requires Runs(1, Readers(h, r), h.name) && Runs(1, Consumers(h), h.name)
    requires AtDeath(1, Readers(h, r), h.name) == SavedNewer(h, r) && AtDeath(1, Consumers(h), h.name) == WiredWith(h)
    ensures OnDisk(1, Readers(h, r), h.name) == map[h.name := HeldAfter(h, r)]
    ensures OnDisk(1, Consumers(h), h.name) == map[h.name := h]
  {
    OneSnapshot(h);
    OneSnapshot(HeldAfter(h, r));
  }

  lemma LivedIs(h: EventLogState, r: Record)
    requires Runs(1, Readers(h, r), h.name) && Runs(1, Consumers(h), h.name)
    requires AtWiring(1, Readers(h, r), h.name) == AtWiring(1, Consumers(h), h.name) == WiredWith(h)
    requires ChannelReader.AllTaken(false, Before(h, r).ticks) == [Result(r)]
    ensures Lived(1, Readers(h, r), Consumers(h), h.name, Before(h, r), Progress([], []))
  {
    hide Runs, Acts, After, Delivery.Offered;
    var acts := Saving(h, r);
    SavingReads(h, r);
    assert ChunksOf(Before(h, r))[..0] == [];
    assert SyslogConsumer.RecordsOf([]) == [];
  }

  lemma SavingReads(h: EventLogState, r: Record)
    ensures ReadsIn(Saving(h, r), h.name) == [Result(r)]
    ensures OnlyReads(Saving(h, r), h.name)
  {
    var acts := Saving(h, r);
    assert ReadsIn(acts[5..], h.name) == [] && acts[4..][1..] == acts[5..];
    assert ReadsIn(acts[4..], h.name) == [] && acts[3..][1..] == acts[4..];
    assert ReadsIn(acts[3..], h.name) == [] && acts[2..][1..] == acts[3..];
    assert ReadsIn(acts[2..], h.name) == [] && acts[1..][1..] == acts[2..];
    assert ReadsIn(acts[1..], h.name) == [];
  }

  lemma NothingGot(l: Life)
    ensures Got(l, Progress([], []), [])
  {
  }

  /** A life in which nothing is read. */
  lemma NothingSent(l: Life)
    requires l.ticks == []
    ensures Batches(l) == [] && ChunksOf(l) == [] && Delivery.Ready(l.cutoff, Batches(l))
  {
  }
}
