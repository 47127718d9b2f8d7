/** The checkpoint worker as a step machine in which a flush takes several steps and the
    process may die between any two of them, and start again from the file. */
module CheckpointMachine {
  import opened Sequences
  import opened Records
  import opened CheckpointStore

  datatype FlushPc = Creating | Writing | Renaming

  datatype Pc =
    | Down                      // no process
    | Booting(at: FlushPc)      // NewCheckpoint's flush
    | Select                    // head of the worker loop
    | Flushing(at: FlushPc, closing: bool)
    | Renamed(closing: bool)    // the flush succeeded, numUpdates not yet reset
    | Stopped                   // the worker has returned

  datatype State = State(
    pc: Pc,
    states: States,
    numUpdates: nat,
    save: seq<EventLogState>,   // the channel, of capacity one
    main: File,
    temp: File,
    // history
    accepted: seq<EventLogState>,  // updates taken by the worker and not lost in a crash
    durable: nat,                  // how many of them the main file holds
    failed: bool)                  // some flush failed since the process started

  datatype Label =
    | Start | Enqueue(s: EventLogState) | Receive | TimerFires | DoneCloses
    | CreateOk | CreateFails | WriteOk(list: seq<EventLogState>) | WriteFails | RenameOk | RenameFails
    | Reset | Crash

  predicate InFlush(pc: Pc, at: FlushPc) {
    pc == Booting(at) || (pc.Flushing? && pc.at == at)
  }

  ghost predicate Enabled(s: State, l: Label) {
    match l
    case Start => s.pc.Down? && !s.main.Broken?
    case Enqueue(_) => !s.pc.Down? && !s.pc.Booting? && s.save == []
    case Receive => s.pc.Select? && s.save != []
    case TimerFires => s.pc.Select?
    case DoneCloses => s.pc.Select?
    case CreateOk => InFlush(s.pc, Creating)
    case CreateFails => InFlush(s.pc, Creating)
    case WriteOk(list) => InFlush(s.pc, Writing) && IsSnapshot(list, s.states)
    case WriteFails => InFlush(s.pc, Writing)
    case RenameOk => InFlush(s.pc, Renaming)
    case RenameFails => InFlush(s.pc, Renaming)
    case Reset => s.pc.Renamed?
    case Crash => !s.pc.Down?
  }

  /** persist: nothing to do when clean. */
  function AtPersist(s: State, closing: bool): Pc {
    if s.numUpdates > 0 then Flushing(Creating, closing)
    else if closing then Stopped else Select
  }

  function AdvanceTo(pc: Pc, at: FlushPc): Pc
    requires pc.Booting? || pc.Flushing?
  {
    if pc.Booting? then Booting(at) else Flushing(at, pc.closing)
  }

  /** A failed flush: NewCheckpoint returns its error, the worker carries on, or has ended. */
  function FlushFails(s: State): State
    requires s.pc.Booting? || s.pc.Flushing?
  {
    if s.pc.Booting? then Die(s)
    else s.(pc := if s.pc.closing then Stopped else Select, failed := true)
  }

  /** Memory is gone, and with it the updates the file does not hold. */
  function Die(s: State): State {
    s.(pc := Down, states := map[], numUpdates := 0, save := [],
       accepted := if s.durable <= |s.accepted| then s.accepted[..s.durable] else s.accepted)
  }

  ghost function Next(maxUpdates: nat, s: State, l: Label): State
    requires Enabled(s, l)
  {
    match l
    case Start =>
      s.(pc := Booting(Creating), numUpdates := 0, failed := false,
         states := if s.main.Complete? then Load(s.main.list) else map[])
    case Enqueue(e) => s.(save := [e])
    case Receive =>
      var e := s.save[0];
      var t := s.(states := Apply(s.states, e), numUpdates := s.numUpdates + 1, save := s.save[1..],
                  accepted := s.accepted + [e]);
      if t.numUpdates < maxUpdates then t else t.(pc := AtPersist(t, false))
    case TimerFires => s.(pc := AtPersist(s, false))
    case DoneCloses => s.(pc := AtPersist(s, true))
    case CreateOk => s.(temp := Broken, pc := AdvanceTo(s.pc, Writing))
    case CreateFails => FlushFails(s)
    case WriteOk(list) => s.(temp := Complete(list), pc := AdvanceTo(s.pc, Renaming))
    case WriteFails => FlushFails(s)
    case RenameOk =>
      s.(main := s.temp, temp := Absent, durable := |s.accepted|,
         pc := if s.pc.Booting? then Select else Renamed(s.pc.closing))
    case RenameFails => FlushFails(s)
    case Reset => s.(numUpdates := 0, pc := if s.pc.closing then Stopped else Select)
    case Crash => Die(s)
  }

  ghost predicate Valid(maxUpdates: nat, s: State, ls: seq<Label>)
    decreases |ls|
  {
    ls == [] || (Enabled(s, ls[0]) && Valid(maxUpdates, Next(maxUpdates, s, ls[0]), ls[1..]))
  }

  ghost function Exec(maxUpdates: nat, s: State, ls: seq<Label>): State
    requires Valid(maxUpdates, s, ls)
    decreases |ls|
  {
    if ls == [] then s else Exec(maxUpdates, Next(maxUpdates, s, ls[0]), ls[1..])
  }

  /** The machine's start: no process, and any file a previous life may have left. */
  ghost predicate Init(s: State) {
    s.pc.Down? && !s.main.Broken? && s == State(Down, map[], 0, [], s.main, s.temp, [], 0, false)
  }

  function Contents(f: File): States {
    if f.Complete? then Load(f.list) else map[]
  }

  /** base is what the very first start found in the file. */
  ghost predicate Inv(maxUpdates: nat, base: States, s: State) {
    && maxUpdates >= 1 && KeyedByName(base) && |s.save| <= 1
    && s.durable <= |s.accepted|
    // the main file is complete, and holds the accepted updates up to durable
    && !s.main.Broken? && Contents(s.main) == Fold(base, s.accepted[..s.durable])
    && (s.pc.Down? ==> s.durable == |s.accepted|)
    // memory holds all of them
    && (!s.pc.Down? ==> s.states == Fold(base, s.accepted))
    && (s.pc.Booting? ==> s.numUpdates == 0 && s.durable == |s.accepted|)
    && (s.pc.Renamed? ==> s.durable == |s.accepted|)
    && (!s.pc.Down? && !s.pc.Renamed? ==> s.numUpdates == |s.accepted| - s.durable)
    // a file about to be renamed is a complete snapshot
    && (InFlush(s.pc, Renaming) ==> s.temp.Complete? && IsSnapshot(s.temp.list, s.states))
    // and without failures at most one batch is unsaved
    && (!s.pc.Down? && !s.failed ==> s.numUpdates <= maxUpdates)
    && (s.pc.Select? && !s.failed ==> s.numUpdates < maxUpdates)
  }

  lemma InitInv(maxUpdates: nat, s: State)
    requires Init(s) && maxUpdates >= 1
    ensures Inv(maxUpdates, Contents(s.main), s)
  {
    if s.main.Complete? {
      FoldKeepsKeys(map[], s.main.list);
    }
  }

  lemma StepInv(maxUpdates: nat, base: States, s: State, l: Label)
    requires Inv(maxUpdates, base, s) && Enabled(s, l)
    ensures Inv(maxUpdates, base, Next(maxUpdates, s, l))
  {
    hide Fold, Load, IsSnapshot, KeyedByName;
    var t := Next(maxUpdates, s, l);
    assert s.accepted[..|s.accepted|] == s.accepted;
    if l.Receive? {
      FoldSnoc(base, s.accepted, s.save[0]);
      assert t.accepted[..t.durable] == s.accepted[..s.durable];
    } else if l.RenameOk? {
      assert t.accepted[..t.durable] == s.accepted;
      SnapshotLoads(s.temp.list, s.states);
    } else if t.pc.Down? {
      assert t.accepted[..t.durable] == s.accepted[..s.durable];
    }
  }

  lemma FoldSnoc(base: States, updates: seq<EventLogState>, e: EventLogState)
    ensures Fold(base, updates + [e]) == Apply(Fold(base, updates), e)
  {
    assert (updates + [e])[..|updates|] == updates;
  }

  lemma SnapshotLoads(list: seq<EventLogState>, m: States)
    requires IsSnapshot(list, m)
    ensures Load(list) == m
  {
  }

  lemma {:induction false} RunInv(maxUpdates: nat, base: States, s: State, ls: seq<Label>)
    requires Inv(maxUpdates, base, s) && Valid(maxUpdates, s, ls)
    ensures Inv(maxUpdates, base, Exec(maxUpdates, s, ls))
    decreases |ls|
  {
    if ls != [] {
      StepInv(maxUpdates, base, s, ls[0]);
      RunInv(maxUpdates, base, Next(maxUpdates, s, ls[0]), ls[1..]);
    }
  }

  /** Crash safety over whole runs: whenever and however often the process dies, the main file
      is complete and holds the accepted updates up to some point; memory is that snapshot
      plus the last numUpdates updates; and if no flush failed, fewer than maxUpdates are
      unsaved whenever the worker is back in its loop. */
  lemma CrashSafe(maxUpdates: nat, start: State, ls: seq<Label>)
    requires Init(start) && maxUpdates >= 1 && Valid(maxUpdates, start, ls)
    ensures var base, s := Contents(start.main), Exec(maxUpdates, start, ls);
            !s.main.Broken? && s.durable <= |s.accepted|
            && Contents(s.main) == Fold(base, s.accepted[..s.durable])
            && (s.pc.Select? ==>
                  s.numUpdates == |s.accepted| - s.durable
                  && s.states == Fold(Contents(s.main), s.accepted[s.durable..])
                  && (!s.failed ==> s.numUpdates < maxUpdates))
  {
    InitInv(maxUpdates, start);
    var base, s := Contents(start.main), Exec(maxUpdates, start, ls);
    RunInv(maxUpdates, base, start, ls);
    FoldConcat(base, s.accepted[..s.durable], s.accepted[s.durable..]);
    assert s.accepted[..s.durable] + s.accepted[s.durable..] == s.accepted;
  }

  /** A crash at any moment of any run, followed by a restart: the new process starts from what
      the file holds, and what the old one had in memory is that plus the updates it had still
      counted, none of them once the flush has renamed the file. */
  lemma CrashAndRestart(maxUpdates: nat, start: State, ls: seq<Label>)
    requires Init(start) && maxUpdates >= 1 && Valid(maxUpdates, start, ls)
    requires !Exec(maxUpdates, start, ls).pc.Down?
    ensures var s := Exec(maxUpdates, start, ls);
            var t := Next(maxUpdates, s, Crash);
            s.durable <= |s.accepted| && Enabled(t, Start)
            && var u := Next(maxUpdates, t, Start);
               var lost := s.accepted[s.durable..];
               u.states == Contents(s.main) && s.states == Fold(u.states, lost)
               && |lost| == if s.pc.Renamed? then 0 else s.numUpdates
  {
    hide Fold, Load, IsSnapshot, KeyedByName;
    InitInv(maxUpdates, start);
    var base, s := Contents(start.main), Exec(maxUpdates, start, ls);
    RunInv(maxUpdates, base, start, ls);
    FoldConcat(base, s.accepted[..s.durable], s.accepted[s.durable..]);
    assert s.accepted[..s.durable] + s.accepted[s.durable..] == s.accepted;
  }

  /** One step loses updates only by a crash, and then exactly those the file lacks. */
  lemma OnlyCrashLoses(maxUpdates: nat, base: States, s: State, l: Label)
    requires Inv(maxUpdates, base, s) && Enabled(s, l)
    ensures var t := Next(maxUpdates, s, l);
            if t.pc.Down? then t.accepted == s.accepted[..s.durable]
            else s.accepted <= t.accepted && s.durable <= t.durable
  {
  }

  // ----- the object's methods are runs of this machine

  ghost function Embed(img: Image, accepted: seq<EventLogState>, failed: bool, pc: Pc): State
    requires img.numUpdates <= |accepted|
  {
    State(pc, img.states, img.numUpdates, [], img.main, img.temp,
          accepted, |accepted| - img.numUpdates, failed)
  }

  ghost function FlushLabels(io: Io, list: seq<EventLogState>): seq<Label> {
    if !io.create then [CreateFails]
    else if !io.write then [CreateOk, WriteFails]
    else if !io.rename then [CreateOk, WriteOk(list), RenameFails]
    else [CreateOk, WriteOk(list), RenameOk, Reset]
  }

  /** The flush of NewCheckpoint has no count to reset. */
  ghost function OpenLabels(io: Io, list: seq<EventLogState>): seq<Label> {
    if io.Ok() then [CreateOk, WriteOk(list), RenameOk] else FlushLabels(io, list)
  }

  lemma RunOne(maxUpdates: nat, s: State, l: Label, ls: seq<Label>)
    requires Enabled(s, l) && Valid(maxUpdates, Next(maxUpdates, s, l), ls)
    ensures Valid(maxUpdates, s, [l] + ls)
    ensures Exec(maxUpdates, s, [l] + ls) == Exec(maxUpdates, Next(maxUpdates, s, l), ls)
  {
    assert ([l] + ls)[1..] == ls;
  }

  /** The list a flush writes, when it gets that far. */
  ghost function WrittenList(after: Image, io: Io): seq<EventLogState> {
    if io.Ok() && after.main.Complete? then after.main.list
    else if after.temp.Complete? then after.temp.list else []
  }

  lemma PersistIsARun(maxUpdates: nat, before: Image, after: Image, io: Io,
                      accepted: seq<EventLogState>, failed: bool, closing: bool)
    requires Persisted(before, after, io) && 0 < before.numUpdates <= |accepted|
    ensures var s := Embed(before, accepted, failed, Flushing(Creating, closing));
            var ls := FlushLabels(io, WrittenList(after, io));
            Valid(maxUpdates, s, ls)
            && Exec(maxUpdates, s, ls)
               == Embed(after, accepted, failed || !io.Ok(), if closing then Stopped else Select)
  {
    var s0 := Embed(before, accepted, failed, Flushing(Creating, closing));
    var list := WrittenList(after, io);
    if !io.create {
      RunOne(maxUpdates, s0, CreateFails, []);
      assert [CreateFails] + [] == [CreateFails];
    } else {
      var s1 := Next(maxUpdates, s0, CreateOk);
      if !io.write {
        RunOne(maxUpdates, s1, WriteFails, []);
        RunOne(maxUpdates, s0, CreateOk, [WriteFails]);
        assert [WriteFails] + [] == [WriteFails] && [CreateOk] + [WriteFails] == [CreateOk, WriteFails];
      } else {
        var s2 := Next(maxUpdates, s1, WriteOk(list));
        var last := if io.rename then [RenameOk, Reset] else [RenameFails];
        if io.rename {
          var s3 := Next(maxUpdates, s2, RenameOk);
          RunOne(maxUpdates, s3, Reset, []);
          RunOne(maxUpdates, s2, RenameOk, [Reset]);
          assert [Reset] + [] == [Reset] && [RenameOk] + [Reset] == last;
        } else {
          RunOne(maxUpdates, s2, RenameFails, []);
          assert [RenameFails] + [] == last;
        }
        RunOne(maxUpdates, s1, WriteOk(list), last);
        RunOne(maxUpdates, s0, CreateOk, [WriteOk(list)] + last);
        assert [CreateOk] + ([WriteOk(list)] + last) == FlushLabels(io, list);
      }
    }
  }

  /** Start-up by the object, with any outcome of its calls, is a run of the machine from no
      process to the loop head, or back when the flush fails. */
  lemma OpenIsARun(maxUpdates: nat, main: File, temp: File, after: Image, io: Io, accepted: seq<EventLogState>)
    requires !main.Broken?
    requires Flushed(Image(Contents(main), 0, main, temp), after, io) && after.numUpdates == 0
    ensures var s := State(Down, map[], 0, [], main, temp, accepted, |accepted|, false);
            var ls := [Start] + OpenLabels(io, WrittenList(after, io));
            Valid(maxUpdates, s, ls)
            && Exec(maxUpdates, s, ls)
               == if io.Ok() then Embed(after, accepted, false, Select)
                  else State(Down, map[], 0, [], after.main, after.temp, accepted, |accepted|, false)
  {
    hide IsSnapshot, Load;
    var s := State(Down, map[], 0, [], main, temp, accepted, |accepted|, false);
    var s0, list := Next(maxUpdates, s, Start), WrittenList(after, io);
    assert accepted[..|accepted|] == accepted;
    if !io.create {
      RunOne(maxUpdates, s0, CreateFails, []);
      assert [CreateFails] + [] == [CreateFails];
    } else {
      var s1 := Next(maxUpdates, s0, CreateOk);
      if !io.write {
        RunOne(maxUpdates, s1, WriteFails, []);
        RunOne(maxUpdates, s0, CreateOk, [WriteFails]);
        assert [WriteFails] + [] == [WriteFails] && [CreateOk] + [WriteFails] == [CreateOk, WriteFails];
      } else {
        var s2 := Next(maxUpdates, s1, WriteOk(list));
        var last := if io.rename then RenameOk else RenameFails;
        RunOne(maxUpdates, s2, last, []);
        RunOne(maxUpdates, s1, WriteOk(list), [last]);
        RunOne(maxUpdates, s0, CreateOk, [WriteOk(list), last]);
        assert [last] + [] == [last] && [WriteOk(list)] + [last] == [WriteOk(list), last];
        assert [CreateOk] + [WriteOk(list), last] == OpenLabels(io, list);
      }
    }
    RunOne(maxUpdates, s, Start, OpenLabels(io, list));
  }

  /** Whether a turn has to flush. */
  predicate FlushDue(maxUpdates: nat, before: Image, input: Input) {
    if input.Save? then before.numUpdates + 1 >= maxUpdates && before.numUpdates + 1 > 0
    else before.numUpdates > 0
  }

  /** The steps of a turn: an update is queued and received, a timer fires or the end is
      signalled; then come those of the flush, if one is due. */
  ghost function TurnLabels(maxUpdates: nat, before: Image, after: Image, input: Input): seq<Label> {
    (match input
     case Save(e, _) => [Enqueue(e), Receive]
     case Timer(_) => [TimerFires]
     case Done(_) => [DoneCloses])
    + (if FlushDue(maxUpdates, before, input) then FlushLabels(input.io, WrittenList(after, input.io)) else [])
  }

  lemma SaveIsARun(maxUpdates: nat, before: Image, after: Image, e: EventLogState, io: Io,
                   accepted: seq<EventLogState>, failed: bool)
    requires Turn(maxUpdates, before, after, Save(e, io)) && before.numUpdates <= |accepted|
    ensures var s := Embed(before, accepted, failed, Select);
            var ls := TurnLabels(maxUpdates, before, after, Save(e, io));
            var failedAfter := failed || (FlushDue(maxUpdates, before, Save(e, io)) && !io.Ok());
            Valid(maxUpdates, s, ls) && after.numUpdates <= |accepted| + 1
            && Exec(maxUpdates, s, ls) == Embed(after, accepted + [e], failedAfter, Select)
  {
    var got := before.(states := Apply(before.states, e), numUpdates := before.numUpdates + 1);
    var now := accepted + [e];
    var s0 := Embed(before, accepted, failed, Select);
    var s1 := Next(maxUpdates, s0, Enqueue(e));
    var s2 := Next(maxUpdates, s1, Receive);
    var due := FlushDue(maxUpdates, before, Save(e, io));
    var ls := if due then FlushLabels(io, WrittenList(after, io)) else [];
    if due {
      PersistIsARun(maxUpdates, got, after, io, now, failed, false);
    }
    assert s2 == Embed(got, now, failed, if due then Flushing(Creating, false) else Select);
    RunOne(maxUpdates, s1, Receive, ls);
    RunOne(maxUpdates, s0, Enqueue(e), [Receive] + ls);
    assert [Enqueue(e)] + ([Receive] + ls) == [Enqueue(e), Receive] + ls;
  }

  lemma FlushIsARun(maxUpdates: nat, before: Image, after: Image, io: Io, closing: bool,
                    accepted: seq<EventLogState>, failed: bool)
    requires Persisted(before, after, io) && before.numUpdates <= |accepted|
    ensures var s := Embed(before, accepted, failed, Select);
            var input := if closing then Done(io) else Timer(io);
            var ls := TurnLabels(maxUpdates, before, after, input);
            var failedAfter := failed || (before.numUpdates > 0 && !io.Ok());
            Valid(maxUpdates, s, ls) && after.numUpdates <= |accepted|
            && Exec(maxUpdates, s, ls) == Embed(after, accepted, failedAfter, if closing then Stopped else Select)
  {
    var s := Embed(before, accepted, failed, Select);
    var l := if closing then DoneCloses else TimerFires;
    var ls := if before.numUpdates > 0 then FlushLabels(io, WrittenList(after, io)) else [];
    if before.numUpdates > 0 {
      PersistIsARun(maxUpdates, before, after, io, accepted, failed, closing);
    }
    RunOne(maxUpdates, s, l, ls);
  }

  /** Every turn of the object's worker loop is a run of the machine, by the steps of that turn,
      from loop head to loop head, or to its end; a flush has failed just when one was due and its
      calls did not all succeed. */
  lemma TurnIsARun(maxUpdates: nat, before: Image, after: Image, input: Input,
                   accepted: seq<EventLogState>, failed: bool)
    requires Turn(maxUpdates, before, after, input) && before.numUpdates <= |accepted|
    ensures var s := Embed(before, accepted, failed, Select);
            var now := if input.Save? then accepted + [input.state] else accepted;
            var ls := TurnLabels(maxUpdates, before, after, input);
            var failedAfter := failed || (FlushDue(maxUpdates, before, input) && !input.io.Ok());
            Valid(maxUpdates, s, ls)
            && after.numUpdates <= |now|
            && Exec(maxUpdates, s, ls)
               == Embed(after, now, failedAfter, if input.Done? then Stopped else Select)
  {
    hide Valid, Exec;
    match input {
      case Save(e, io) => SaveIsARun(maxUpdates, before, after, e, io, accepted, failed);
      case Timer(io) => FlushIsARun(maxUpdates, before, after, io, false, accepted, failed);
      case Done(io) => FlushIsARun(maxUpdates, before, after, io, true, accepted, failed);
    }
  }

  // ----- what is accepted

  /** The updates put on the channel by a run. */
  function Enqueued(ls: seq<Label>): seq<EventLogState> {
    if ls == [] then []
    else (if ls[0].Enqueue? then [ls[0].s] else []) + Enqueued(ls[1..])
  }

  lemma StepAccepts(maxUpdates: nat, s: State, l: Label)
    requires Enabled(s, l) && |s.save| <= 1 && !s.pc.Down? && !s.pc.Booting? && !l.Crash?
    ensures var t := Next(maxUpdates, s, l);
            !t.pc.Down? && !t.pc.Booting? && |t.save| <= 1
            && t.accepted + t.save == s.accepted + s.save + if l.Enqueue? then [l.s] else []
  {
    if l.Receive? {
      assert s.save == [s.save[0]];
    }
  }

  /** As long as the process lives no update is lost, repeated or reordered between the channel's
      senders and the history that file and memory are told by. */
  lemma {:induction false} UpdatesAreAccepted(maxUpdates: nat, s: State, ls: seq<Label>)
    requires Valid(maxUpdates, s, ls) && |s.save| <= 1 && !s.pc.Down? && !s.pc.Booting?
    requires forall l :: l in ls ==> !l.Crash?
    ensures var t := Exec(maxUpdates, s, ls);
            !t.pc.Down? && !t.pc.Booting? && |t.save| <= 1
            && t.accepted + t.save == s.accepted + s.save + Enqueued(ls)
    decreases |ls|
  {
    hide Next, Enabled;
    if ls != [] {
      var t := Next(maxUpdates, s, ls[0]);
      assert ls[0] in ls && forall m :: m in ls[1..] ==> m in ls;
      StepAccepts(maxUpdates, s, ls[0]);
      UpdatesAreAccepted(maxUpdates, t, ls[1..]);
      var had, one := s.accepted + s.save, if ls[0].Enqueue? then [ls[0].s] else [];
      assert (had + one) + Enqueued(ls[1..]) == had + (one + Enqueued(ls[1..]));
    }
  }
}
