/** Whole runs of a checkpoint and of the readers or consumers wired to it: the durable cutoffs,
    and how a log is wired after a crash. */
module CheckpointRuns {
  import opened Records
  import opened CheckpointStore
  import opened CheckpointMachine
  import opened CheckpointCutoffs

  ghost predicate Acts(maxUpdates: nat, w: World, acts: seq<Act>)
    decreases |acts|
  {
    acts == [] || (CanAct(w, acts[0]) && Acts(maxUpdates, Do(maxUpdates, w, acts[0]), acts[1..]))
  }

  ghost function After(maxUpdates: nat, w: World, acts: seq<Act>): World
    requires Acts(maxUpdates, w, acts)
    decreases |acts|
  {
    if acts == [] then w else After(maxUpdates, Do(maxUpdates, w, acts[0]), acts[1..])
  }

  /** No act moves the log's cutoff back; what channel readers and syslog consumers do is not
      restricted. */
  ghost predicate AllInOrder(maxUpdates: nat, w: World, acts: seq<Act>, name: string)
    requires Acts(maxUpdates, w, acts)
    decreases |acts|
  {
    acts == [] || (InOrder(w, acts[0], name) && AllInOrder(maxUpdates, Do(maxUpdates, w, acts[0]), acts[1..], name))
  }

  /** In particular when the log belongs to a channel reader or a syslog consumer. */
  lemma {:induction false} OwnLogInOrder(maxUpdates: nat, w: World, acts: seq<Act>, name: string)
    requires Acts(maxUpdates, w, acts)
    requires forall a :: a in acts && a.Other? ==> a.s.name != name
    requires forall a :: a in acts && (a.Packets? || a.Scan?) ==> a.name != name
    ensures AllInOrder(maxUpdates, w, acts, name)
    decreases |acts|
  {
    hide Do, CanAct;
    if acts != [] {
      assert acts[0] in acts && forall a :: a in acts[1..] ==> a in acts;
      OwnLogInOrder(maxUpdates, Do(maxUpdates, w, acts[0]), acts[1..], name);
    }
  }

  lemma {:induction false} RunNeverBack(maxUpdates: nat, base: States, w: World, acts: seq<Act>, name: string)
    requires Inv(maxUpdates, base, w.store) && Wired(w) && Ahead(base, w, name)
    requires Acts(maxUpdates, w, acts) && AllInOrder(maxUpdates, w, acts, name)
    ensures var v := After(maxUpdates, w, acts);
            Inv(maxUpdates, base, v.store) && Wired(v) && Ahead(base, v, name)
            && (name in Contents(w.store.main) ==>
                  name in Contents(v.store.main)
                  && Contents(w.store.main)[name].timestamp <= Contents(v.store.main)[name].timestamp)
    decreases |acts|
  {
    hide Do, CanAct, Inv, Wired, Ahead, InOrder, Contents;
    if acts != [] {
      ActKeepsWired(maxUpdates, base, w, acts[0]);
      ActKeepsAhead(maxUpdates, base, w, acts[0], name);
      if name in Contents(w.store.main) {
        ActNeverBack(maxUpdates, base, w, acts[0], name);
      }
      RunNeverBack(maxUpdates, base, Do(maxUpdates, w, acts[0]), acts[1..], name);
    }
  }

  /** The world before anything is started. */
  ghost predicate AtStart(maxUpdates: nat, w: World) {
    maxUpdates >= 1 && Init(w.store) && w.held == map[] && w.todo == map[]
  }

  lemma StartKeeps(maxUpdates: nat, w: World, name: string)
    requires AtStart(maxUpdates, w)
    ensures Inv(maxUpdates, Contents(w.store.main), w.store)
    ensures Wired(w) && Ahead(Contents(w.store.main), w, name)
  {
    InitInv(maxUpdates, w.store);
    assert Pending(w.store) == [];
  }

  /** Across batches, chunks, failed flushes, crashes and restarts, the cutoff on disk of every
      log only moves forward. */
  lemma DurableCutoffNeverGoesBack(maxUpdates: nat, start: World, early: seq<Act>, late: seq<Act>, name: string)
    requires AtStart(maxUpdates, start)
    requires Acts(maxUpdates, start, early) && AllInOrder(maxUpdates, start, early, name)
    requires var w := After(maxUpdates, start, early);
             Acts(maxUpdates, w, late) && AllInOrder(maxUpdates, w, late, name)
    ensures var w := After(maxUpdates, start, early);
            var v := After(maxUpdates, w, late);
            name in Contents(w.store.main) ==>
              name in Contents(v.store.main)
              && Contents(w.store.main)[name].timestamp <= Contents(v.store.main)[name].timestamp
  {
    hide Inv, Wired, Ahead, Contents;
    var base := Contents(start.store.main);
    StartKeeps(maxUpdates, start, name);
    RunNeverBack(maxUpdates, base, start, early, name);
    RunNeverBack(maxUpdates, base, After(maxUpdates, start, early), late, name);
  }

  /** At any moment of any run, the durable cutoff of a log is not above the one its reader or
      consumer holds, and wiring the log takes the durable one. */
  lemma DurableNeverAheadOfHolder(maxUpdates: nat, start: World, acts: seq<Act>, name: string)
    requires AtStart(maxUpdates, start)
    requires Acts(maxUpdates, start, acts) && AllInOrder(maxUpdates, start, acts, name)
    ensures var w := After(maxUpdates, start, acts);
            (name in w.held && name in Contents(w.store.main) ==>
               Contents(w.store.main)[name].timestamp <= w.held[name].timestamp)
            && (forall now :: CanAct(w, Wire(name, now)) && name in Contents(w.store.main) ==>
               Do(maxUpdates, w, Wire(name, now)).held[name] == Contents(w.store.main)[name])
  {
    hide Inv, Wired, Ahead, Contents;
    var base := Contents(start.store.main);
    StartKeeps(maxUpdates, start, name);
    RunNeverBack(maxUpdates, base, start, acts, name);
    var w := After(maxUpdates, start, acts);
    if name in w.held && name in Contents(w.store.main) {
      DurableNotAhead(maxUpdates, base, w, name);
    }
    forall now | CanAct(w, Wire(name, now)) && name in Contents(w.store.main)
      ensures Do(maxUpdates, w, Wire(name, now)).held[name] == Contents(w.store.main)[name]
    {
      WiredAtDurable(maxUpdates, base, w, name, now);
    }
  }

  // ----- from a crash to the next wiring

  ghost predicate SameState(m: States, n: States, name: string) {
    (name in m <==> name in n) && (name in m ==> m[name] == n[name])
  }

  /** The updates since the file was written have none of an unwired log. */
  lemma DiskOfUnwired(maxUpdates: nat, base: States, w: World, name: string)
    requires Inv(maxUpdates, base, w.store) && Wired(w) && name !in w.held
    ensures SameState(Contents(w.store.main), Fold(base, Pending(w.store)), name)
  {
    hide Fold;
    var s := w.store;
    assert NoneOf(Pending(s)[s.durable..], name);
    assert Pending(s)[..s.durable] == s.accepted[..s.durable];
    FoldOfOthers(base, Pending(s), s.durable, name);
  }

  lemma PutOfAnother(maxUpdates: nat, base: States, w: World, s: EventLogState, name: string)
    requires Enabled(w.store, Enqueue(s)) && s.name != name
    ensures SameState(Fold(base, Pending(w.store)), Fold(base, Pending(Put(maxUpdates, w, s).store)), name)
  {
    EnqueuePending(maxUpdates, w.store, s);
    var all := Pending(w.store) + [s];
    assert all[..|Pending(w.store)|] == Pending(w.store);
  }

  lemma StoreOfUnwired(maxUpdates: nat, base: States, w: World, l: Label, name: string)
    requires Inv(maxUpdates, base, w.store) && Wired(w) && name !in w.held && CanAct(w, Store(l))
    ensures SameState(Fold(base, Pending(w.store)), Fold(base, Pending(Do(maxUpdates, w, Store(l)).store)), name)
  {
    hide Fold;
    var s := w.store;
    StorePending(maxUpdates, s, l);
    var t := Next(maxUpdates, s, l);
    if t.pc.Down? {
      assert NoneOf(Pending(s)[s.durable..], name);
      assert Pending(t) == Pending(s)[..s.durable];
      FoldOfOthers(base, Pending(s), s.durable, name);
    }
  }

  /** The log is not wired by the act. */
  predicate Leaves(a: Act, name: string) {
    !(a.Wire? && a.name == name)
  }

  lemma ActOfUnwired(maxUpdates: nat, base: States, w: World, a: Act, name: string)
    requires Inv(maxUpdates, base, w.store) && Wired(w) && name !in w.held
    requires CanAct(w, a) && Leaves(a, name)
    ensures name !in Do(maxUpdates, w, a).held
    ensures SameState(Fold(base, Pending(w.store)), Fold(base, Pending(Do(maxUpdates, w, a).store)), name)
  {
    hide Fold;
    match a {
      case Store(l) => StoreOfUnwired(maxUpdates, base, w, l, name);
      case Wire(n, now) =>
        if n !in w.store.states {
          PutOfAnother(maxUpdates, base, w, FreshState(n, now), name);
        }
      case Scan(_, _, _) =>
      case Emit(n) =>
        assert Named(w.todo[n], n);
        PutOfAnother(maxUpdates, base, w, w.todo[n][0], name);
      case Other(s) => PutOfAnother(maxUpdates, base, w, s, name);
      case _ =>
        var saved := Saved(w.held[a.name], a);
        if saved != [] {
          PutOfAnother(maxUpdates, base, w, saved[0], name);
        }
    }
  }

  /** Until a log is wired its state on disk stays what it is, whatever else happens. */
  lemma {:induction false} RunOfUnwired(maxUpdates: nat, base: States, w: World, acts: seq<Act>, name: string)
    requires Inv(maxUpdates, base, w.store) && Wired(w) && name !in w.held
    requires Acts(maxUpdates, w, acts) && forall a :: a in acts ==> Leaves(a, name)
    ensures var v := After(maxUpdates, w, acts);
            Inv(maxUpdates, base, v.store) && Wired(v) && name !in v.held
            && SameState(Contents(w.store.main), Contents(v.store.main), name)
    decreases |acts|
  {
    hide Do, CanAct, Inv, Wired, Contents, Fold, Leaves;
    if acts != [] {
      assert acts[0] in acts && forall a :: a in acts[1..] ==> a in acts;
      var v := Do(maxUpdates, w, acts[0]);
      ActKeepsWired(maxUpdates, base, w, acts[0]);
      ActOfUnwired(maxUpdates, base, w, acts[0], name);
      DiskOfUnwired(maxUpdates, base, w, name);
      DiskOfUnwired(maxUpdates, base, v, name);
      RunOfUnwired(maxUpdates, base, v, acts[1..], name);
    }
  }

  lemma {:induction false} RunKeepsWired(maxUpdates: nat, base: States, w: World, acts: seq<Act>)
    requires Inv(maxUpdates, base, w.store) && Wired(w) && Acts(maxUpdates, w, acts)
    ensures var v := After(maxUpdates, w, acts); Inv(maxUpdates, base, v.store) && Wired(v)
    decreases |acts|
  {
    hide Do, CanAct, Inv, Wired;
    if acts != [] {
      ActKeepsWired(maxUpdates, base, w, acts[0]);
      RunKeepsWired(maxUpdates, base, Do(maxUpdates, w, acts[0]), acts[1..]);
    }
  }

  /** The process dies at any moment of any run. However often it is started and dies again before
      the log is next wired, and whatever the other logs' readers persist meanwhile, the log is
      then wired with the state its file held at the first death. */
  lemma RewiredWithTheDurable(
    maxUpdates: nat, start: World, acts: seq<Act>, between: seq<Act>, name: string, now: int)
    requires AtStart(maxUpdates, start) && Acts(maxUpdates, start, acts)
    requires var w := After(maxUpdates, start, acts);
             CanAct(w, Store(Crash))
             && var dead := Do(maxUpdates, w, Store(Crash));
                Acts(maxUpdates, dead, between) && (forall a :: a in between ==> Leaves(a, name))
                && CanAct(After(maxUpdates, dead, between), Wire(name, now))
    ensures var w := After(maxUpdates, start, acts);
            var v := After(maxUpdates, Do(maxUpdates, w, Store(Crash)), between);
            name in Do(maxUpdates, v, Wire(name, now)).held
            && Do(maxUpdates, v, Wire(name, now)).held[name]
               == if name in Contents(w.store.main) then Contents(w.store.main)[name] else FreshState(name, now)
    ensures var w := After(maxUpdates, start, acts);
            var v := After(maxUpdates, Do(maxUpdates, w, Store(Crash)), between);
            var h := Do(maxUpdates, v, Wire(name, now)).held[name];
            name !in Contents(w.store.main) ==> h.name == name && h.timestamp == now && h.md5 == NoDigest
  {
    hide Inv, Wired, Ahead, Contents, Fold, Leaves;
    var base := Contents(start.store.main);
    StartKeeps(maxUpdates, start, name);
    RunKeepsWired(maxUpdates, base, start, acts);
    var w := After(maxUpdates, start, acts);
    var dead := Do(maxUpdates, w, Store(Crash));
    ActKeepsWired(maxUpdates, base, w, Store(Crash));
    assert dead.store.main == w.store.main;
    RunOfUnwired(maxUpdates, base, dead, between, name);
    WiredAtDurable(maxUpdates, base, After(maxUpdates, dead, between), name, now);
  }
}
