/** The readers of several logs, or the consumers of several topics, share one checkpoint: a
    log's durable cutoff never goes back, and a restart resumes from it. */
module CheckpointCutoffs {
  import opened Sequences
  import opened Records
  import opened CheckpointStore
  import opened CheckpointMachine
  import ChannelReader
  import EtlScanner
  import SyslogConsumer
  import DnsPacketReader

  /** The checkpoint worker, the state held for each log that is wired to it, and for a log of
      which a scanned file is being emitted, the cutoffs still to be persisted. */
  datatype World = World(
    store: State, held: map<string, EventLogState>, todo: map<string, seq<EventLogState>>)

  datatype Act =
    | Store(l: Label)                       // any step of the worker, the disk or the process
    | Wire(name: string, now: int)          // addReader, addDNSPacket, hookConsumer
    | Read(name: string, result: ChannelReader.ReadResult)       // a channel reader's batch
    | Chunk(name: string, records: seq<Record>)                  // a syslog consumer's chunk
    | Packets(name: string, batch: seq<Record>)                  // a packet reader's batch
    | Scan(name: string, events: seq<Record>, size: nat)         // an ETL scanner filters a file
    | Emit(name: string)                                         // and persists its next chunk
    | Other(s: EventLogState)               // any other participant persists what it likes

  predicate Up(pc: Pc) {
    !pc.Down? && !pc.Booting?
  }

  function FreshState(name: string, now: int): EventLogState {
    EventLogState(name, 0, now, NoDigest, "")
  }

  predicate Simple(a: Act) {
    a.Read? || a.Chunk? || a.Packets?
  }

  /** The state persisted by such an act of a reader or consumer that holds h, if any. */
  function Saved(h: EventLogState, a: Act): (r: seq<EventLogState>)
    requires Simple(a)
    ensures |r| <= 1
  {
    if a.Read? then
      if ChannelReader.Kept(h.timestamp, a.result.events) == [] then []
      else [ChannelReader.StateAfter(h, a.result.events, a.result.bookmark)]
    else if a.Chunk? then
      if a.records == [] || h.timestamp >= Last(a.records).timestamp then []
      else [h.(timestamp := Last(a.records).timestamp)]
    else
      if a.batch == [] then []
      else [EventLogState(h.name, 0, Last(a.batch).timestamp, NoDigest, "")]
  }

  /** No file of the log is being emitted. */
  predicate Idle(w: World, name: string) {
    name in w.todo ==> w.todo[name] == []
  }

  ghost predicate CanAct(w: World, a: Act) {
    match a
    case Store(l) => !l.Enqueue? && Enabled(w.store, l)
    case Wire(name, now) =>
      Up(w.store.pc) && name !in w.held && (name in w.store.states || w.store.save == [])
    case Scan(name, _, size) => name in w.held && Idle(w, name) && size >= 1
    case Emit(name) => name in w.held && !Idle(w, name) && Enabled(w.store, Enqueue(w.todo[name][0]))
    case Other(s) => s.name in w.held && Idle(w, s.name) && Enabled(w.store, Enqueue(s))
    case _ =>
      a.name in w.held && Idle(w, a.name)
      && (Saved(w.held[a.name], a) == [] || Enabled(w.store, Enqueue(Saved(w.held[a.name], a)[0])))
  }

  ghost function Put(maxUpdates: nat, w: World, s: EventLogState): World
    requires Enabled(w.store, Enqueue(s))
  {
    w.(store := Next(maxUpdates, w.store, Enqueue(s)), held := w.held[s.name := s])
  }

  ghost function Do(maxUpdates: nat, w: World, a: Act): World
    requires CanAct(w, a)
  {
    match a
    case Store(l) =>
      var t := Next(maxUpdates, w.store, l);
      if t.pc.Down? then World(t, map[], map[]) else w.(store := t)
    case Wire(name, now) =>
      if name in w.store.states then w.(held := w.held[name := w.store.states[name]])
      else Put(maxUpdates, w, FreshState(name, now))
    case Scan(name, events, size) =>
      w.(todo := w.todo[name := EtlScanner.ChunkCutoffs(name, EtlScanner.Delta(w.held[name], events), size)])
    case Emit(name) =>
      Put(maxUpdates, w, w.todo[name][0]).(todo := w.todo[name := w.todo[name][1..]])
    case Other(s) => Put(maxUpdates, w, s)
    case _ =>
      var saved := Saved(w.held[a.name], a);
      if saved == [] then w else Put(maxUpdates, w, saved[0])
  }

  /** A chunk's act is an iteration of the consumer's loop. */
  lemma ChunkIsAnIteration(h: EventLogState, name: string, records: seq<Record>)
    requires records != [] && |records| <= 100
    ensures var (position, cutoff) := SyslogConsumer.Iterate(records, 0, h.timestamp);
            var saved := Saved(h, Chunk(name, records));
            (saved == [] <==> position == 0)
            && (saved != [] ==> position == |records| && saved[0] == h.(timestamp := cutoff))
  {
  }

  /** The act of a batch of packets persists what the packet reader does when it sends one. */
  method PacketsAreSaved(reader: DnsPacketReader.Reader, input: DnsPacketReader.Input, ghost h: EventLogState)
    requires reader.Valid() && h.name == "DNSLog" + reader.deviceName
    modifies reader
    ensures reader.records == old(reader.records) ==> reader.persisted == old(reader.persisted)
    ensures reader.records != old(reader.records) ==>
      reader.records != [] && reader.persisted != []
      && Saved(h, Packets(h.name, Last(reader.records))) == [Last(reader.persisted)]
  {
    reader.Step(input);
  }

  /** What a channel reader or a syslog consumer persists is a newer state of the same log. */
  lemma SavedIsNewer(h: EventLogState, a: Act)
    requires (a.Read? || a.Chunk?) && Saved(h, a) != []
    ensures Saved(h, a)[0].name == h.name && h.timestamp < Saved(h, a)[0].timestamp
  {
    if a.Read? {
      ChannelReader.CutoffIsLastKept(h.timestamp, a.result.events);
    }
  }

  /** The act does not make a reader move the log's cutoff back. It depends on what is read only
      for a file of an ETL scanner, whose passing records must be in time order, and for a batch
      of packets, the last of which must not be older than the one before. */
  ghost predicate InOrder(w: World, a: Act, name: string) {
    match a
    case Scan(n, events, _) => n == name && n in w.held ==> EtlScanner.PassingInOrder(w.held[n], events)
    case Packets(n, batch) =>
      n == name && n in w.held && batch != [] ==> w.held[n].timestamp <= Last(batch).timestamp
    case Other(s) => s.name == name && name in w.held ==> w.held[name].timestamp <= s.timestamp
    case _ => true
  }

  /** Every update of the log is at least as new as the state it replaces. */
  ghost predicate Forward(base: States, updates: seq<EventLogState>, name: string) {
    forall j :: 0 <= j < |updates| && updates[j].name == name ==> NotOlder(Fold(base, updates[..j]), updates[j])
  }

  ghost predicate NotOlder(m: States, s: EventLogState) {
    s.name in m ==> m[s.name].timestamp <= s.timestamp
  }

  /** Updates the worker holds or is about to take. */
  function Pending(s: State): seq<EventLogState> {
    s.accepted + s.save
  }

  ghost predicate NoneOf(updates: seq<EventLogState>, name: string) {
    forall s :: s in updates ==> s.name != name
  }

  ghost predicate Named(cutoffs: seq<EventLogState>, name: string) {
    forall i :: 0 <= i < |cutoffs| ==> cutoffs[i].name == name
  }

  /** The cutoffs to come are no older than the one held, and never drop. */
  ghost predicate Rising(h: EventLogState, cutoffs: seq<EventLogState>) {
    EtlScanner.NeverDrop(cutoffs) && (cutoffs != [] ==> h.timestamp <= cutoffs[0].timestamp)
  }

  /** The part that does not depend on the order of what is persisted. */
  ghost predicate Wired(w: World) {
    && (!Up(w.store.pc) ==> w.held == map[] && w.store.save == [])
    && (forall name :: name in w.held ==> w.held[name].name == name)
    && (forall name :: name in w.todo ==> name in w.held)
    && (forall name :: name in w.todo ==> Named(w.todo[name], name))
    && w.store.durable <= |w.store.accepted|
    && (forall name :: name !in w.held ==> NoneOf(Pending(w.store)[w.store.durable..], name))
  }

  ghost predicate Ahead(base: States, w: World, name: string) {
    var m := Fold(base, Pending(w.store));
    Forward(base, Pending(w.store), name)
    && (name in w.held && name in m ==> m[name].timestamp <= w.held[name].timestamp)
    && (name in w.held && name in w.todo ==> Rising(w.held[name], w.todo[name]))
  }

  // ----- every act keeps it

  lemma EnqueuePending(maxUpdates: nat, s: State, e: EventLogState)
    requires Enabled(s, Enqueue(e))
    ensures var t := Next(maxUpdates, s, Enqueue(e));
            Pending(s) == s.accepted && Pending(t) == Pending(s) + [e]
            && t.accepted == s.accepted && t.durable == s.durable && Up(t.pc) && Up(s.pc)
  {
  }

  lemma PutWired(maxUpdates: nat, w: World, s: EventLogState)
    requires Wired(w) && Enabled(w.store, Enqueue(s))
    ensures Wired(Put(maxUpdates, w, s))
  {
    EnqueuePending(maxUpdates, w.store, s);
    var v := Put(maxUpdates, w, s);
    var rest := Pending(w.store)[w.store.durable..];
    assert Pending(v.store)[v.store.durable..] == rest + [s];
    forall name | name !in v.held ensures NoneOf(rest + [s], name) {
      assert NoneOf(rest, name);
    }
  }

  /** No step of the worker adds an update; only a death of the process drops some. */
  lemma StorePending(maxUpdates: nat, s: State, l: Label)
    requires !l.Enqueue? && Enabled(s, l) && |s.save| <= 1 && s.durable <= |s.accepted|
    requires s.pc.Down? ==> s.durable == |s.accepted|
    ensures var t := Next(maxUpdates, s, l);
            if t.pc.Down? then t.accepted == s.accepted[..s.durable] && t.save == []
            else Pending(t) == Pending(s) && (t.save == [] || t.save == s.save)
    ensures var t := Next(maxUpdates, s, l);
            !t.pc.Down? && !Up(t.pc) ==> !Up(s.pc) && t.save == s.save
  {
    if l.Receive? {
      assert s.save == [s.save[0]];
    }
  }

  lemma StoreWired(maxUpdates: nat, base: States, w: World, l: Label)
    requires Inv(maxUpdates, base, w.store) && Wired(w) && CanAct(w, Store(l))
    ensures Wired(Do(maxUpdates, w, Store(l)))
  {
    hide Fold, Load, IsSnapshot, KeyedByName;
    var s, v := w.store, Do(maxUpdates, w, Store(l));
    var t := v.store;
    StepInv(maxUpdates, base, s, l);
    StorePending(maxUpdates, s, l);
    OnlyCrashLoses(maxUpdates, base, s, l);
    if t.pc.Down? {
      assert Pending(t)[t.durable..] == [];
    } else {
      assert s.durable <= t.durable && Pending(t) == Pending(s);
      forall name | name !in v.held ensures NoneOf(Pending(t)[t.durable..], name) {
        assert NoneOf(Pending(s)[s.durable..], name);
        assert Pending(t)[t.durable..] == Pending(s)[s.durable..][t.durable - s.durable..];
      }
    }
  }

  lemma ForwardSnoc(base: States, updates: seq<EventLogState>, s: EventLogState, name: string)
    requires Forward(base, updates, name)
    requires s.name == name ==> NotOlder(Fold(base, updates), s)
    ensures Forward(base, updates + [s], name)
    ensures Fold(base, updates + [s]) == Apply(Fold(base, updates), s)
  {
    hide NotOlder;
    var all := updates + [s];
    assert all[..|updates|] == updates;
    forall j | 0 <= j < |all| && all[j].name == name ensures NotOlder(Fold(base, all[..j]), all[j]) {
      if j < |updates| {
        assert all[..j] == updates[..j];
      }
    }
  }

  lemma ForwardPrefix(base: States, updates: seq<EventLogState>, n: nat, name: string)
    requires Forward(base, updates, name) && n <= |updates|
    ensures Forward(base, updates[..n], name)
  {
    hide NotOlder, Fold;
    var some := updates[..n];
    forall j | 0 <= j < n && some[j].name == name ensures NotOlder(Fold(base, some[..j]), some[j]) {
      assert some[..j] == updates[..j];
    }
  }

  lemma FoldTo(base: States, updates: seq<EventLogState>, j: nat)
    requires 0 < j <= |updates|
    ensures Fold(base, updates[..j]) == Apply(Fold(base, updates[..j - 1]), updates[j - 1])
  {
    assert updates[..j][..j - 1] == updates[..j - 1];
  }

  /** Along a forward history the state of the log stays and its timestamp does not drop. */
  lemma {:induction false} ForwardRises(base: States, updates: seq<EventLogState>, i: nat, j: nat, name: string)
    requires Forward(base, updates, name) && i <= j <= |updates|
    requires name in Fold(base, updates[..i])
    ensures name in Fold(base, updates[..j])
    ensures Fold(base, updates[..i])[name].timestamp <= Fold(base, updates[..j])[name].timestamp
    decreases j
  {
    hide Fold;
    if i < j {
      ForwardRises(base, updates, i, j - 1, name);
      FoldTo(base, updates, j);
      assert updates[j - 1].name == name ==> NotOlder(Fold(base, updates[..j - 1]), updates[j - 1]);
    }
  }

  /** Nothing but its own updates changes the state of a log. */
  lemma {:induction false} FoldOfOthers(base: States, updates: seq<EventLogState>, i: nat, name: string)
    requires i <= |updates| && NoneOf(updates[i..], name)
    ensures name in Fold(base, updates) <==> name in Fold(base, updates[..i])
    ensures name in Fold(base, updates) ==> Fold(base, updates)[name] == Fold(base, updates[..i])[name]
    decreases |updates|
  {
    if i < |updates| {
      var init := updates[..|updates| - 1];
      assert updates[i..] == init[i..] + [Last(updates)];
      assert forall s :: s in init[i..] ==> s in updates[i..];
      assert Last(updates) in updates[i..];
      FoldOfOthers(base, init, i, name);
      assert init[..i] == updates[..i];
    } else {
      assert updates[..i] == updates;
    }
  }

  lemma ScannedCutoffs(name: string, h: EventLogState, events: seq<Record>, size: nat)
    requires size >= 1
    ensures var cutoffs := EtlScanner.ChunkCutoffs(name, EtlScanner.Delta(h, events), size);
            Named(cutoffs, name)
            && (EtlScanner.PassingInOrder(h, events) ==> Rising(h, cutoffs))
  {
    var delta := EtlScanner.Delta(h, events);
    EtlScanner.DeltaMembers(h, events);
    EtlScanner.CutoffsAtChunkEnds(name, delta, size, 0);
    hide EtlScanner.ChunkEnd, EtlScanner.ChunkCutoffs, EtlScanner.Delta;
    var cutoffs := EtlScanner.ChunkCutoffs(name, delta, size);
    forall i | 0 <= i < |cutoffs| ensures cutoffs[i].name == name && h.timestamp <= cutoffs[i].timestamp {
      var k: nat := i;
      assert cutoffs[k] == EtlScanner.CutoffAt(name, delta[EtlScanner.ChunkEnd(|delta|, size, 0, k)]);
      assert delta[EtlScanner.ChunkEnd(|delta|, size, 0, k)] in delta;
    }
    if EtlScanner.PassingInOrder(h, events) {
      EtlScanner.DeltaInOrder(h, events);
      EtlScanner.OrderedCutoffs(name, delta, size);
    }
  }

  lemma ScanKeeps(maxUpdates: nat, w: World, name: string, events: seq<Record>, size: nat)
    requires Wired(w) && CanAct(w, Scan(name, events, size))
    ensures Wired(Do(maxUpdates, w, Scan(name, events, size)))
  {
    hide EtlScanner.ChunkCutoffs, EtlScanner.Delta, EtlScanner.PassingInOrder;
    ScannedCutoffs(name, w.held[name], events, size);
  }

  lemma PutKeeps(maxUpdates: nat, base: States, w: World, s: EventLogState)
    requires Inv(maxUpdates, base, w.store) && Wired(w) && Enabled(w.store, Enqueue(s))
    ensures var v := Put(maxUpdates, w, s); Inv(maxUpdates, base, v.store) && Wired(v)
  {
    StepInv(maxUpdates, base, w.store, Enqueue(s));
    PutWired(maxUpdates, w, s);
  }

  lemma EmitKeeps(maxUpdates: nat, base: States, w: World, name: string)
    requires Inv(maxUpdates, base, w.store) && Wired(w) && CanAct(w, Emit(name))
    ensures var v := Do(maxUpdates, w, Emit(name)); Inv(maxUpdates, base, v.store) && Wired(v)
  {
    hide Inv, Fold;
    var s, rest := w.todo[name][0], w.todo[name][1..];
    PutKeeps(maxUpdates, base, w, s);
    assert forall i :: 0 <= i < |rest| ==> rest[i] == w.todo[name][i + 1];
    assert s.name == name;
  }

  lemma EmitAhead(maxUpdates: nat, base: States, w: World, n: string, name: string)
    requires Wired(w) && Ahead(base, w, name) && CanAct(w, Emit(n))
    ensures Ahead(base, Do(maxUpdates, w, Emit(n)), name)
  {
    hide Fold, Forward;
    var s, rest := w.todo[n][0], w.todo[n][1..];
    assert Named(w.todo[n], n) && s.name == n;
    EnqueuePending(maxUpdates, w.store, s);
    ForwardSnoc(base, Pending(w.store), s, name);
    if n == name {
      assert forall i :: 0 <= i < |rest| ==> rest[i] == w.todo[n][i + 1];
      assert Rising(s, rest);
    }
  }

  lemma PutAhead(maxUpdates: nat, base: States, w: World, s: EventLogState, name: string)
    requires Ahead(base, w, name) && Enabled(w.store, Enqueue(s))
    requires s.name == name ==> NotOlder(Fold(base, Pending(w.store)), s) && Idle(w, name)
    ensures Ahead(base, Put(maxUpdates, w, s), name)
  {
    hide Fold, Forward;
    EnqueuePending(maxUpdates, w.store, s);
    ForwardSnoc(base, Pending(w.store), s, name);
  }

  lemma StoreAhead(maxUpdates: nat, base: States, w: World, l: Label, name: string)
    requires Inv(maxUpdates, base, w.store) && Ahead(base, w, name) && CanAct(w, Store(l))
    ensures Ahead(base, Do(maxUpdates, w, Store(l)), name)
  {
    hide Fold, Forward;
    var s := w.store;
    StorePending(maxUpdates, s, l);
    var t := Next(maxUpdates, s, l);
    if t.pc.Down? {
      assert Pending(t) == Pending(s)[..s.durable];
      ForwardPrefix(base, Pending(s), s.durable, name);
    }
  }

  /** An unwired log has the same state in memory as on disk. */
  lemma UnwiredIsDurable(maxUpdates: nat, base: States, w: World, name: string)
    requires Inv(maxUpdates, base, w.store) && Wired(w) && Up(w.store.pc) && name !in w.held
    ensures name in w.store.states <==> name in Contents(w.store.main)
    ensures name in w.store.states ==> w.store.states[name] == Contents(w.store.main)[name]
    ensures w.store.states == Fold(base, w.store.accepted)
    ensures name in Fold(base, Pending(w.store)) <==> name in w.store.states
    ensures name in w.store.states ==> Fold(base, Pending(w.store))[name] == w.store.states[name]
  {
    hide Fold, IsSnapshot;
    var s := w.store;
    var all := Pending(s);
    assert NoneOf(all[s.durable..], name);
    assert all[..s.durable] == s.accepted[..s.durable] && all[..|s.accepted|] == s.accepted;
    assert forall u :: u in s.accepted[s.durable..] ==> u in all[s.durable..];
    assert forall u :: u in all[|s.accepted|..] ==> u in all[s.durable..];
    FoldOfOthers(base, s.accepted, s.durable, name);
    FoldOfOthers(base, all, |s.accepted|, name);
  }

  /** A log that has a state on disk is wired with it; a crash and a restart lead back to it. */
  lemma WiredAtDurable(maxUpdates: nat, base: States, w: World, name: string, now: int)
    requires Inv(maxUpdates, base, w.store) && Wired(w) && CanAct(w, Wire(name, now))
    ensures Do(maxUpdates, w, Wire(name, now)).held[name]
            == if name in Contents(w.store.main) then Contents(w.store.main)[name] else FreshState(name, now)
    ensures name !in Contents(w.store.main) ==>
            var h := Do(maxUpdates, w, Wire(name, now)).held[name];
            h.name == name && h.timestamp == now && h.recordNumber == 0 && h.md5 == NoDigest && h.bookmark == ""
  {
    UnwiredIsDurable(maxUpdates, base, w, name);
  }

  lemma ActKeepsWired(maxUpdates: nat, base: States, w: World, a: Act)
    requires Inv(maxUpdates, base, w.store) && Wired(w) && CanAct(w, a)
    ensures var v := Do(maxUpdates, w, a); Inv(maxUpdates, base, v.store) && Wired(v)
  {
    hide Fold, Inv, Wired;
    match a {
      case Store(l) =>
        StepInv(maxUpdates, base, w.store, l);
        StoreWired(maxUpdates, base, w, l);
      case Wire(name, now) =>
        if name in w.store.states {
          WireKeeps(maxUpdates, base, w, name);
        } else {
          PutKeeps(maxUpdates, base, w, FreshState(name, now));
        }
      case Scan(name, events, size) => ScanKeeps(maxUpdates, w, name, events, size);
      case Emit(name) => EmitKeeps(maxUpdates, base, w, name);
      case Other(s) => PutKeeps(maxUpdates, base, w, s);
      case _ =>
        var saved := Saved(w.held[a.name], a);
        if saved != [] {
          PutKeeps(maxUpdates, base, w, saved[0]);
        }
    }
  }

  lemma WireKeeps(maxUpdates: nat, base: States, w: World, name: string)
    requires Inv(maxUpdates, base, w.store) && Wired(w) && Up(w.store.pc)
    requires name !in w.held && name in w.store.states
    ensures Wired(w.(held := w.held[name := w.store.states[name]]))
  {
    FoldKeepsKeys(base, w.store.accepted);
  }

  lemma ActKeepsAhead(maxUpdates: nat, base: States, w: World, a: Act, name: string)
    requires Inv(maxUpdates, base, w.store) && Wired(w) && Ahead(base, w, name)
    requires CanAct(w, a) && InOrder(w, a, name)
    ensures Ahead(base, Do(maxUpdates, w, a), name)
  {
    hide Fold, Forward;
    match a {
      case Store(l) => StoreAhead(maxUpdates, base, w, l, name);
      case Wire(n, now) =>
        UnwiredIsDurable(maxUpdates, base, w, n);
        if n !in w.store.states {
          PutAhead(maxUpdates, base, w, FreshState(n, now), name);
        }
      case Scan(n, events, size) =>
        if n == name {
          ScannedCutoffs(n, w.held[n], events, size);
        }
      case Emit(n) => EmitAhead(maxUpdates, base, w, n, name);
      case Other(s) => PutAhead(maxUpdates, base, w, s, name);
      case _ =>
        var h := w.held[a.name];
        if Saved(h, a) != [] {
          if !a.Packets? {
            SavedIsNewer(h, a);
          }
          PutAhead(maxUpdates, base, w, Saved(h, a)[0], name);
        }
    }
  }

  // ----- the file

  /** What the main file holds is only ever extended. */
  lemma DurableExtends(maxUpdates: nat, base: States, s: State, l: Label)
    requires Inv(maxUpdates, base, s) && Enabled(s, l)
    ensures var t := Next(maxUpdates, s, l);
            s.durable <= t.durable <= |t.accepted|
            && t.accepted[..s.durable] == s.accepted[..s.durable]
  {
    StepInv(maxUpdates, base, s, l);
    OnlyCrashLoses(maxUpdates, base, s, l);
  }

  lemma DoExtends(maxUpdates: nat, base: States, w: World, a: Act)
    requires Inv(maxUpdates, base, w.store) && CanAct(w, a)
    ensures var t := Do(maxUpdates, w, a).store;
            w.store.durable <= t.durable <= |t.accepted|
            && t.accepted[..w.store.durable] == w.store.accepted[..w.store.durable]
  {
    if Do(maxUpdates, w, a).store != w.store {
      match a {
        case Store(l) => DurableExtends(maxUpdates, base, w.store, l);
        case Wire(n, now) => DurableExtends(maxUpdates, base, w.store, Enqueue(FreshState(n, now)));
        case Emit(n) => DurableExtends(maxUpdates, base, w.store, Enqueue(w.todo[n][0]));
        case Other(s) => DurableExtends(maxUpdates, base, w.store, Enqueue(s));
        case Scan(_, _, _) =>
        case _ => DurableExtends(maxUpdates, base, w.store, Enqueue(Saved(w.held[a.name], a)[0]));
      }
    }
  }

  lemma FileNeverBack(maxUpdates: nat, base: States, s: State, v: World, name: string)
    requires Inv(maxUpdates, base, s) && Inv(maxUpdates, base, v.store) && Ahead(base, v, name)
    requires s.durable <= v.store.durable && v.store.accepted[..s.durable] == s.accepted[..s.durable]
    requires name in Contents(s.main)
    ensures name in Contents(v.store.main)
    ensures Contents(s.main)[name].timestamp <= Contents(v.store.main)[name].timestamp
  {
    var t := v.store;
    var all := Pending(t);
    assert all[..t.durable] == t.accepted[..t.durable];
    assert all[..s.durable] == s.accepted[..s.durable];
    ForwardRises(base, all, s.durable, t.durable, name);
  }

  /** The file never holds a newer cutoff than the reader or consumer itself. */
  lemma DurableNotAhead(maxUpdates: nat, base: States, w: World, name: string)
    requires Inv(maxUpdates, base, w.store) && Ahead(base, w, name)
    requires name in w.held && name in Contents(w.store.main)
    ensures Contents(w.store.main)[name].timestamp <= w.held[name].timestamp
  {
    var all := Pending(w.store);
    assert all[..w.store.durable] == w.store.accepted[..w.store.durable] && all[..|all|] == all;
    ForwardRises(base, all, w.store.durable, |all|, name);
  }

  /** One act never takes a log's durable state away or its timestamp back. */
  lemma ActNeverBack(maxUpdates: nat, base: States, w: World, a: Act, name: string)
    requires Inv(maxUpdates, base, w.store) && Wired(w) && Ahead(base, w, name)
    requires CanAct(w, a) && InOrder(w, a, name) && name in Contents(w.store.main)
    ensures var v := Do(maxUpdates, w, a);
            name in Contents(v.store.main)
            && Contents(w.store.main)[name].timestamp <= Contents(v.store.main)[name].timestamp
  {
    hide Inv, Wired, Ahead, CanAct, InOrder, Do, Contents;
    ActKeepsWired(maxUpdates, base, w, a);
    ActKeepsAhead(maxUpdates, base, w, a, name);
    DoExtends(maxUpdates, base, w, a);
    FileNeverBack(maxUpdates, base, w.store, Do(maxUpdates, w, a), name);
  }
}
