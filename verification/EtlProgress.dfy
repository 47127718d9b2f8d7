/** When the ETL pipeline can stall. */
module EtlProgress {
  import opened Sequences
  import opened Records
  import opened EtlScanner
  import opened EtlPipeline
  import opened EtlOrder

  ghost predicate InFlight(s: State) {
    s.etlQueue != [] || s.sortList != [] || s.loaders != map[] || s.events != []
  }

  ghost predicate ConversionRunning(s: State) {
    exists f :: f in s.converters && f !in s.converted
  }

  /** Steps the pipeline takes by itself: no new snapshot, no external conversion ending. */
  predicate Internal(l: Label) {
    !l.Arrive? && !l.ConvertOk? && !l.ConvertFail?
  }

  ghost predicate CanStep(c: Config, s: State) {
    exists l :: Internal(l) && Enabled(c, s, l)
  }

  ghost predicate Deadlocked(c: Config, s: State) {
    InFlight(s) && !ConversionRunning(s) && !CanStep(c, s)
  }

  /** Listed files that came out of conversion ahead of the list's front. */
  ghost function Overtakers(s: State): set<File> {
    if s.sortList == [] then {}
    else
      var p := Pushed(s);
      set g | g in s.sortList && g in p && IndexOf(p, g) < IndexOf(p, s.sortList[0])
  }

  lemma StalledLoadersWait(c: Config, s: State)
    requires Inv(c, s) && !CanStep(c, s)
    ensures s.events == [] && forall f :: f in s.loaders ==> s.loaders[f].Waiting?
  {
    assert !Enabled(c, s, Scanned);
    forall f | f in s.loaders ensures s.loaders[f].Waiting? {
      assert !Enabled(c, s, Parsed(f, [])) && !Enabled(c, s, Send(f));
    }
  }

  lemma SomeLoader(loaders: map<File, Phase>) returns (f: File)
    requires loaders != map[]
    ensures f in loaders
  {
    assert (forall k :: k !in loaders) ==> loaders.Keys == {};
    f :| f in loaders;
  }

  lemma StalledQueues(c: Config, s: State)
    requires Inv(c, s) && !CanStep(c, s) && !ConversionRunning(s)
    ensures s.pendingXml != [] ==> |s.loaders| == c.threads + 1
    ensures s.pendingXml == [] ==>
            s.xmlQueue == [] && s.converters == [] && s.pendingEtl == [] && s.etlQueue == []
  {
    assert !Enabled(c, s, TakeXml) && !Enabled(c, s, SubmitXml);
    assert !Enabled(c, s, TakeEtl) && !Enabled(c, s, SubmitEtl);
    forall f | f in s.converters ensures s.xmlQueue != [] {
      assert !Enabled(c, s, PushXml(f));
    }
    assert s.converters != [] ==> s.converters[0] in s.converters;
  }

  /** A stalled pipeline has every loader waiting behind a file that no loader holds. */
  lemma DeadlockShape(c: Config, s: State)
    requires Reachable(c, s) && Deadlocked(c, s)
    ensures |s.loaders| == c.threads + 1 && s.sortList != []
    ensures forall f :: f in s.loaders ==> s.loaders[f].Waiting?
    ensures s.sortList[0] !in s.loaders
  {
    SortListExact(c, s);
    ReachableInv(c, s);
    StalledLoadersWait(c, s);
    StalledQueues(c, s);
    assert s.pendingXml != [] ==> s.pendingXml[0] in s.pendingXml;
    if s.loaders != map[] {
      var f := SomeLoader(s.loaders);
      assert f in s.sortList;
    }
    var front := s.sortList[0];
    assert front in s.sortList && !Enabled(c, s, Release(front));
    assert front !in s.loaders;
  }

  /** While at most threads files overtake the list's front, nothing stalls. */
  lemma ProgressUnderFewOvertakers(c: Config, s: State)
    requires Reachable(c, s) && InFlight(s) && |Overtakers(s)| <= c.threads
    ensures ConversionRunning(s) || CanStep(c, s)
  {
    if Deadlocked(c, s) {
      DeadlockShape(c, s);
      SortListExact(c, s);
      ReachableInv(c, s);
      var p, front := Pushed(s), s.sortList[0];
      assert front in s.sortList && front !in Gone(s) by { WithoutMembers(s.arrived, Gone(s)); }
      assert front !in s.loaded;
      IndexBeyondPrefix(s.loaded, p, front);
      forall g | g in s.loaders ensures g in Overtakers(s) {
        assert g in s.loaded;
        IndexInPrefix(s.loaded, p, g);
      }
      SubsetCount(s.loaders.Keys, Overtakers(s));
      assert false;
    }
  }

  // ----- one converter

  /** With one converter thread files keep their arrival order all the way. */
  ghost predicate Serial(s: State) {
    Without(s.arrived, s.failed) == Pushed(s) + s.converters + s.pendingEtl
  }

  lemma EtlStepsSerial(c: Config, s: State, l: Label)
    requires Inv(c, s) && Serial(s) && Enabled(c, s, l)
    requires l.TakeEtl? || l.SubmitEtl?
    ensures Serial(Next(c, s, l))
  {
    var t := Next(c, s, l);
    assert Pushed(t) == Pushed(s);
    if l.TakeEtl? {
      var f := s.etlQueue[0];
      assert f in s.etlQueue && f !in s.arrived && f !in s.failed;
      WithoutConcat(s.arrived, [f], s.failed);
      assert Without([f], s.failed) == [f];
    } else {
      assert s.pendingEtl == [s.pendingEtl[0]];
    }
  }

  lemma ConvertFailSerial(c: Config, s: State, f: File)
    requires c.threads == 1 && Inv(c, s) && Serial(s) && Enabled(c, s, ConvertFail(f))
    ensures Serial(Next(c, s, ConvertFail(f)))
  {
    hide LoaderSide, ScannerSide;
    var t := Next(c, s, ConvertFail(f));
    assert s.converters == [f] && t.converters == [] && Pushed(t) == Pushed(s);
    WithoutTwice(s.arrived, s.failed, {f});
    WithoutConcat(Pushed(s) + [f], s.pendingEtl, {f});
    WithoutConcat(Pushed(s), [f], {f});
    WithoutDisjoint(Pushed(s), {f});
    WithoutDisjoint(s.pendingEtl, {f});
    assert Without([f], {f}) == [];
  }

  lemma StepSerial(c: Config, s: State, l: Label)
    requires c.threads == 1 && Inv(c, s) && Serial(s) && Enabled(c, s, l)
    ensures Serial(Next(c, s, l))
  {
    hide LoaderSide, ScannerSide;
    var t := Next(c, s, l);
    if l.TakeEtl? || l.SubmitEtl? {
      EtlStepsSerial(c, s, l);
    } else if l.ConvertFail? {
      ConvertFailSerial(c, s, l.f);
    } else if l.PushXml? {
      assert s.converters == [l.f] && t.converters == [];
      assert Pushed(t) == Pushed(s) + [l.f];
    } else {
      assert l.SubmitXml? ==> s.pendingXml == [s.pendingXml[0]];
      assert Pushed(t) == Pushed(s);
    }
  }

  lemma {:induction false} RunSerial(c: Config, s: State, ls: seq<Label>)
    requires c.threads == 1 && Inv(c, s) && Serial(s) && Valid(c, s, ls)
    ensures Serial(Exec(c, s, ls))
    decreases |ls|
  {
    hide Next, Enabled, Inv;
    if ls != [] {
      StepInv(c, s, ls[0]);
      StepSerial(c, s, ls[0]);
      RunSerial(c, Next(c, s, ls[0]), ls[1..]);
    }
  }

  lemma ReachableSerial(c: Config, s: State)
    requires c.threads == 1 && Reachable(c, s)
    ensures Serial(s)
  {
    var start, etls, xmls, ls :|
      Init(c, start, etls, xmls) && Valid(c, start, ls) && Exec(c, start, ls) == s;
    InitInv(c, start, etls, xmls);
    WithoutDisjoint(xmls, {});
    assert Serial(start);
    RunSerial(c, start, ls);
  }

  /** Then the first of the list is in a loader as soon as any listed file is. */
  lemma FrontIsLoaded(c: Config, s: State, g: File)
    requires c.threads == 1 && Reachable(c, s)
    requires g in s.loaders && !s.loaders[g].Unsent?
    ensures s.sortList != [] && s.sortList[0] in s.loaders
  {
    ReachableSerial(c, s);
    ReachableInv(c, s);
    var rest := s.pendingXml + s.xmlQueue + s.converters + s.pendingEtl;
    var done := Elements(s.released);
    assert Pushed(s) + s.converters + s.pendingEtl == s.loaded + rest;
    WithoutTwice(s.arrived, s.failed, done);
    assert s.failed + done == Gone(s);
    WithoutConcat(s.loaded, rest, done);
    WithoutMembers(s.loaded, done);
    assert g in Without(s.loaded, done);
    assert s.sortList[0] == Without(s.loaded, done)[0];
    assert s.sortList[0] in Without(s.loaded, done);
  }

  /** With one converter thread no reachable state is deadlocked. */
  lemma NoDeadlockWithOneThread(c: Config, s: State)
    requires c.threads == 1 && Reachable(c, s)
    ensures !Deadlocked(c, s)
  {
    if Deadlocked(c, s) {
      DeadlockShape(c, s);
      var g := SomeLoader(s.loaders);
      FrontIsLoaded(c, s, g);
      assert false;
    }
  }

  // ----- two or more converters

  /** Snapshots with names of their own. */
  function Snapshot(i: nat): (f: File)
    ensures f.id == i && |f.name| == i
  {
    File(i, seq(i, _ => 'x'))
  }

  /** File 0 is still being converted while files 1..k have run ahead and wait for it. */
  ghost function RanAhead(c: Config, k: nat): State {
    State([], [], [Snapshot(0)], {}, [], [], AllWaiting(k),
          UpTo(k + 1), [], Scan(c.cutoff, []),
          UpTo(k + 1), {}, UpTo(k + 1)[1..], [], [], [])
  }

  function AllWaiting(k: nat): (m: map<File, Phase>)
    ensures |m| == k && forall f :: f in m <==> 1 <= f.id <= k && f == Snapshot(f.id)
    ensures forall f :: f in m ==> m[f] == Waiting([])
  {
    if k == 0 then map[] else AllWaiting(k - 1)[Snapshot(k) := Waiting([])]
  }

  function UpTo(n: nat): (r: seq<File>)
    ensures |r| == n && forall i :: 0 <= i < n ==> r[i] == Snapshot(i)
  {
    seq(n, i requires i >= 0 => Snapshot(i))
  }

  /** The state in which file 0 alone is being converted is reachable. */
  lemma FirstConverting(c: Config)
    requires c.threads >= 2
    ensures Reachable(c, RanAhead(c, 0))
  {
    var s0 := State([], [], [], {}, [], [], map[], [], [], Scan(c.cutoff, []), [], {}, [], [], [], []);
    assert Init(c, s0, [], []);
    assert Valid(c, s0, []) && Exec(c, s0, []) == s0;
    assert Reachable(c, s0);
    ReachableStep(c, s0, Arrive(Snapshot(0)));
    var s1 := Next(c, s0, Arrive(Snapshot(0)));
    ReachableStep(c, s1, TakeEtl);
    var s2 := Next(c, s1, TakeEtl);
    ReachableStep(c, s2, SubmitEtl);
    var s3 := Next(c, s2, SubmitEtl);
    assert s3 == RanAhead(c, 0);
  }

  /** As before, with file k + 1 in the xml queue. */
  ghost function Overtaking(c: Config, k: nat): State {
    RanAhead(c, k).(xmlQueue := [Snapshot(k + 1)], sortList := UpTo(k + 2), arrived := UpTo(k + 2))
  }

  /** As in RanAhead, with file k + 1 in the second converter. */
  ghost function SecondConverting(c: Config, k: nat): State {
    RanAhead(c, k).(converters := [Snapshot(0), Snapshot(k + 1)], sortList := UpTo(k + 2), arrived := UpTo(k + 2))
  }

  lemma SecondStarts(c: Config, k: nat)
    requires c.threads >= 2 && Reachable(c, RanAhead(c, k))
    ensures Reachable(c, SecondConverting(c, k))
  {
    hide Reachable;
    var s0, f := RanAhead(c, k), Snapshot(k + 1);
    ReachableStep(c, s0, Arrive(f));
    var s1 := Next(c, s0, Arrive(f));
    ReachableStep(c, s1, TakeEtl);
    var s2 := Next(c, s1, TakeEtl);
    ReachableStep(c, s2, SubmitEtl);
    assert Next(c, s2, SubmitEtl) == SecondConverting(c, k);
  }

  lemma ConversionRunsAhead(c: Config, k: nat)
    requires c.threads >= 2 && Reachable(c, RanAhead(c, k))
    ensures Reachable(c, Overtaking(c, k))
  {
    hide Reachable;
    SecondStarts(c, k);
    var s0, f := SecondConverting(c, k), Snapshot(k + 1);
    ReachableStep(c, s0, ConvertOk(f));
    var s1 := Next(c, s0, ConvertOk(f));
    var first := Snapshot(0);
    assert Remove([first, f], f) == [first] + Remove([f], f) by { assert [first, f][1..] == [f]; }
    ReachableStep(c, s1, PushXml(f));
    assert Next(c, s1, PushXml(f)).converters == [first];
    assert Next(c, s1, PushXml(f)) == Overtaking(c, k);
  }

  /** As in Overtaking, with file k + 1 in a loader. */
  ghost function Loading(c: Config, k: nat): State {
    Overtaking(c, k).(xmlQueue := [], loaders := AllWaiting(k)[Snapshot(k + 1) := Parsing],
                      loaded := UpTo(k + 2)[1..])
  }

  lemma OvertakerLoads(c: Config, k: nat)
    requires c.threads >= 2 && k <= c.threads && Reachable(c, Overtaking(c, k))
    ensures Reachable(c, Loading(c, k))
  {
    hide Reachable;
    var s0 := Overtaking(c, k);
    ReachableStep(c, s0, TakeXml);
    var s1 := Next(c, s0, TakeXml);
    ReachableStep(c, s1, SubmitXml);
    assert UpTo(k + 2)[1..] == UpTo(k + 1)[1..] + [Snapshot(k + 1)];
    assert Next(c, s1, SubmitXml) == Loading(c, k);
  }

  /** One more file can overtake file 0, as long as a loader is free. */
  lemma OneMoreRunsAhead(c: Config, k: nat)
    requires c.threads >= 2 && k <= c.threads && Reachable(c, RanAhead(c, k))
    ensures Reachable(c, RanAhead(c, k + 1))
  {
    hide Reachable;
    ConversionRunsAhead(c, k);
    OvertakerLoads(c, k);
    var s, f := Loading(c, k), Snapshot(k + 1);
    LastParsed(c, k);
    ReachableStep(c, s, Parsed(f, []));
  }

  lemma LastParsed(c: Config, k: nat)
    ensures Enabled(c, Loading(c, k), Parsed(Snapshot(k + 1), []))
    ensures Next(c, Loading(c, k), Parsed(Snapshot(k + 1), [])) == RanAhead(c, k + 1)
  {
    var s, f := Loading(c, k), Snapshot(k + 1);
    assert s.loaders[f := Waiting([])] == AllWaiting(k + 1);
  }

  lemma {:induction false} AllRunAhead(c: Config, k: nat)
    requires c.threads >= 2 && k <= c.threads + 1
    ensures Reachable(c, RanAhead(c, k))
  {
    if k == 0 {
      FirstConverting(c);
    } else {
      AllRunAhead(c, k - 1);
      OneMoreRunsAhead(c, k - 1);
    }
  }

  /** All loader slots wait for file 0, which is in none of them. */
  lemma AllStuck(c: Config, s: State)
    requires s.etlQueue == [] && s.pendingEtl == [] && s.converters == [] && s.xmlQueue == []
    requires s.events == [] && s.loaders == AllWaiting(c.threads + 1)
    requires s.sortList != [] && s.sortList[0] == Snapshot(0)
    ensures Deadlocked(c, s)
  {
    forall l | Internal(l) ensures !Enabled(c, s, l) {
    }
  }

  /** File 0 has come out of conversion after k others. */
  ghost function FirstQueued(c: Config, k: nat): State {
    RanAhead(c, k).(converters := [], xmlQueue := [Snapshot(0)])
  }

  lemma FirstComesOut(c: Config, k: nat)
    requires c.threads >= 2 && Reachable(c, RanAhead(c, k))
    ensures Reachable(c, FirstQueued(c, k))
  {
    hide Reachable;
    var s0, f := RanAhead(c, k), Snapshot(0);
    ReachableStep(c, s0, ConvertOk(f));
    var s1 := Next(c, s0, ConvertOk(f));
    ReachableStep(c, s1, PushXml(f));
    assert Next(c, s1, PushXml(f)) == FirstQueued(c, k);
  }

  lemma FirstGetsStuck(c: Config)
    ensures var s := FirstQueued(c, c.threads + 1);
            Enabled(c, s, TakeXml) && Deadlocked(c, Next(c, s, TakeXml))
  {
    hide Deadlocked;
    AllStuck(c, Next(c, FirstQueued(c, c.threads + 1), TakeXml));
  }

  /** Once threads + 1 files wait, file 0 can finish its conversion but never be loaded. */
  lemma DeadlockWithMoreThreads(c: Config)
    requires c.threads >= 2
    ensures exists s :: Reachable(c, s) && Deadlocked(c, s)
  {
    hide Reachable, Deadlocked, Next, Enabled, FirstQueued, RanAhead;
    AllRunAhead(c, c.threads + 1);
    FirstComesOut(c, c.threads + 1);
    FirstGetsStuck(c);
    ReachableStep(c, FirstQueued(c, c.threads + 1), TakeXml);
  }

  /** The pipeline can deadlock exactly when it is configured with two or more converter
      threads. */
  lemma DeadlockIffMoreThanOneThread(c: Config)
    requires c.threads >= 1
    ensures (exists s :: Reachable(c, s) && Deadlocked(c, s)) <==> c.threads >= 2
  {
    if c.threads >= 2 {
      DeadlockWithMoreThreads(c);
    } else {
      forall s | Reachable(c, s) ensures !Deadlocked(c, s) {
        NoDeadlockWithOneThread(c, s);
      }
    }
  }

  // ----- draining

  ghost function Parsers(s: State): set<File> {
    set f | f in s.loaders && s.loaders[f].Parsing?
  }

  ghost function Senders(s: State): set<File> {
    set f | f in s.loaders && s.loaders[f].Unsent?
  }

  /** Bounds the steps left before every file is failed or scanned. */
  ghost function WorkLeft(s: State): int {
    10 * |s.etlQueue| + 9 * |s.pendingEtl| + 8 * |s.converters| - |s.converted|
    + 6 * |s.xmlQueue| + 5 * |s.pendingXml|
    + 3 * |s.loaders| + |Parsers(s)| - |Senders(s)| + |s.events|
  }

  lemma WorkLeftIsNat(c: Config, s: State)
    requires Inv(c, s)
    ensures WorkLeft(s) >= 0
  {
    SubsetCount(Senders(s), s.loaders.Keys);
    DistinctCount(s.converters);
    assert forall f :: f in s.converted ==> f in Elements(s.converters);
    SubsetCount(s.converted, Elements(s.converters));
  }

  lemma QueueStepWork(c: Config, s: State, l: Label)
    requires Enabled(c, s, l)
    requires l.TakeEtl? || l.SubmitEtl? || l.ConvertOk? || l.TakeXml? || l.Scanned?
    ensures WorkLeft(Next(c, s, l)) < WorkLeft(s)
  {
    var t := Next(c, s, l);
    assert Parsers(t) == Parsers(s) && Senders(t) == Senders(s);
  }

  lemma LeaveConverterWork(c: Config, s: State, l: Label)
    requires Inv(c, s) && Enabled(c, s, l) && (l.ConvertFail? || l.PushXml?)
    ensures WorkLeft(Next(c, s, l)) < WorkLeft(s)
  {
    var t := Next(c, s, l);
    assert Parsers(t) == Parsers(s) && Senders(t) == Senders(s);
    RemoveIsWithout(s.converters, l.f);
  }

  lemma SubmitXmlWork(c: Config, s: State)
    requires Inv(c, s) && Enabled(c, s, SubmitXml)
    ensures WorkLeft(Next(c, s, SubmitXml)) < WorkLeft(s)
  {
    var t, f := Next(c, s, SubmitXml), s.pendingXml[0];
    FreshLoader(c, s);
    assert Parsers(t) == Parsers(s) + {f} && Senders(t) == Senders(s);
  }

  lemma SendWork(c: Config, s: State, f: File)
    requires Inv(c, s) && Enabled(c, s, Send(f))
    ensures WorkLeft(Next(c, s, Send(f))) < WorkLeft(s)
  {
    var t := Next(c, s, Send(f));
    assert t.loaders.Keys == s.loaders.Keys - {f};
    assert Parsers(t) == Parsers(s) && Senders(t) == Senders(s) - {f};
  }

  lemma StepWork(c: Config, s: State, l: Label)
    requires Inv(c, s) && Enabled(c, s, l) && !l.Arrive?
    ensures WorkLeft(Next(c, s, l)) < WorkLeft(s)
  {
    match l {
      case ConvertFail(f) => LeaveConverterWork(c, s, l);
      case PushXml(f) => LeaveConverterWork(c, s, l);
      case SubmitXml => SubmitXmlWork(c, s);
      case ReadFail(f) => TakenOffList(s, f, []);
      case UnmarshalFail(f, partial) => TakenOffList(s, f, partial);
      case Parsed(f, _) =>
        var t := Next(c, s, l);
        assert t.loaders.Keys == s.loaders.Keys;
        assert Parsers(t) == Parsers(s) - {f} && Senders(t) == Senders(s);
      case Release(f) => TakenOffList(s, f, s.loaders[f].parsed);
      case Send(f) => SendWork(c, s, f);
      case _ => QueueStepWork(c, s, l);
    }
  }

  lemma FreshLoader(c: Config, s: State)
    requires Inv(c, s) && s.pendingXml != []
    ensures s.pendingXml[0] !in s.loaders
  {
    PushedParts(s);
    var f := s.pendingXml[0];
    assert f in s.pendingXml && f !in s.loaded;
    assert f in s.loaders ==> f in s.loaded;
  }

  lemma TakenOffList(s: State, f: File, events: seq<Record>)
    requires f in s.loaders && !s.loaders[f].Unsent?
    ensures var t := TakeOffList(s, f, events);
            |t.loaders| == |s.loaders|
            && |Parsers(t)| == |Parsers(s)| - Held(s.loaders[f].Parsing?)
            && |Senders(t)| == |Senders(s)| + 1
  {
    var t := TakeOffList(s, f, events);
    assert t.loaders.Keys == s.loaders.Keys;
    assert Parsers(t) == Parsers(s) - {f};
    assert Senders(t) == Senders(s) + {f};
  }

  lemma {:induction false} RunWork(c: Config, s: State, ls: seq<Label>)
    requires Inv(c, s) && Valid(c, s, ls)
    requires forall l :: l in ls ==> !l.Arrive?
    ensures |ls| <= WorkLeft(s) - WorkLeft(Exec(c, s, ls))
    decreases |ls|
  {
    hide Next, Enabled, Inv;
    if ls != [] {
      StepInv(c, s, ls[0]);
      StepWork(c, s, ls[0]);
      RunWork(c, Next(c, s, ls[0]), ls[1..]);
    }
  }

  /** No step left but the arrival of another snapshot. */
  ghost predicate Quiet(c: Config, s: State) {
    forall l: Label :: !l.Arrive? ==> !Enabled(c, s, l)
  }

  lemma QuietIsDrained(c: Config, s: State)
    requires Reachable(c, s) && Quiet(c, s)
    requires c.threads == 1 || |Overtakers(s)| <= c.threads
    ensures !InFlight(s)
  {
    forall f | f in s.converters ensures f in s.converted {
      assert !Enabled(c, s, ConvertOk(f));
    }
    if c.threads == 1 {
      NoDeadlockWithOneThread(c, s);
    } else if InFlight(s) {
      ProgressUnderFewOvertakers(c, s);
    }
  }

  lemma DrainedIsScanned(c: Config, s: State, f: File)
    requires Reachable(c, s) && !InFlight(s) && f in s.arrived
    ensures f in s.failed || f in Files(s.scanned)
  {
    SortListExact(c, s);
    ReachableInv(c, s);
    PushedParts(s);
    assert s.scanned + s.events == s.scanned;
    assert f !in s.sortList;
  }

  /** Between snapshots the pipeline takes boundedly many steps, and once it can take no more
      every listed file has failed conversion or has been scanned, provided there is one
      thread or few files overtake the list's front. */
  lemma Drains(c: Config, s: State, ls: seq<Label>)
    requires Reachable(c, s) && Valid(c, s, ls)
    requires forall l :: l in ls ==> !l.Arrive?
    ensures |ls| <= WorkLeft(s)
    ensures var end := Exec(c, s, ls);
            Quiet(c, end) && (c.threads == 1 || |Overtakers(end)| <= c.threads)
            ==> end.etlQueue == []
                && forall f :: f in end.arrived ==> f in end.failed || f in Files(end.scanned)
  {
    hide Reachable, Valid, Inv, WorkLeft, Overtakers, Quiet;
    var end := Exec(c, s, ls);
    ReachableInv(c, s);
    RunInv(c, s, ls);
    RunWork(c, s, ls);
    WorkLeftIsNat(c, end);
    ReachableRun(c, s, ls);
    if Quiet(c, end) && (c.threads == 1 || |Overtakers(end)| <= c.threads) {
      QuietIsDrained(c, end);
      forall f | f in end.arrived ensures f in end.failed || f in Files(end.scanned) {
        DrainedIsScanned(c, end, f);
      }
    }
  }

  lemma {:induction false} ReachableRun(c: Config, s: State, ls: seq<Label>)
    requires Reachable(c, s) && Valid(c, s, ls)
    ensures Reachable(c, Exec(c, s, ls))
    decreases |ls|
  {
    hide Next, Enabled, Inv;
    if ls != [] {
      ReachableStep(c, s, ls[0]);
      ReachableRun(c, Next(c, s, ls[0]), ls[1..]);
    }
  }
}
