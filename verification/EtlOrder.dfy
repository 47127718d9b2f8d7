/** What the sorted list guarantees in every reachable state of the ETL pipeline. */
module EtlOrder {
  import opened Sequences
  import opened EtlScanner
  import opened EtlPipeline

  /** On its way to a loader, or held by one that has not released it. */
  predicate Unreleased(s: State, f: File) {
    || f in s.pendingEtl || f in s.converters || f in s.xmlQueue || f in s.pendingXml
    || (f in s.loaders && !s.loaders[f].Unsent?)
  }

  /** sortList holds exactly the unreleased, unfailed files, each once, in arrival order. */
  lemma SortListExact(c: Config, s: State)
    requires Reachable(c, s)
    ensures forall f :: f in s.sortList <==> Unreleased(s, f)
    ensures s.sortList == Without(s.arrived, Gone(s)) && Distinct(s.sortList)
  {
    ReachableInv(c, s);
    WithoutMembers(s.arrived, Gone(s));
    PushedParts(s);
  }

  lemma PushedParts(s: State)
    requires Distinct(Pushed(s))
    ensures forall f :: f in Pushed(s) <==> f in s.loaded || f in s.pendingXml || f in s.xmlQueue
    ensures forall f :: f in s.loaded ==> f !in s.pendingXml && f !in s.xmlQueue
    ensures forall f :: f in s.pendingXml ==> f !in s.xmlQueue
  {
    DistinctParts(s.loaded + s.pendingXml, s.xmlQueue);
    DistinctParts(s.loaded, s.pendingXml);
  }

  function Held(b: bool): nat {
    if b then 1 else 0
  }

  /** In how many places of the pipeline a file is. */
  ghost function Places(s: State, f: File): nat {
    Held(f in s.pendingEtl) + Held(f in s.converters) + Held(f in s.failed) + Held(f in s.xmlQueue)
    + Held(f in s.pendingXml) + Held(f in s.loaders) + Held(f in Files(s.events)) + Held(f in Files(s.scanned))
  }

  /** No file is lost or duplicated: once listed it is in exactly one place, and it reaches
      the scanner at most once. */
  lemma NoFileLostOrDuplicated(c: Config, s: State, f: File)
    requires Reachable(c, s)
    ensures Places(s, f) == Held(f in s.arrived)
    ensures Distinct(Files(s.scanned))
  {
    ReachableInv(c, s);
    PushedParts(s);
    assert s.sent == Files(s.scanned) + Files(s.events);
    DistinctParts(Files(s.scanned), Files(s.events));
  }

  /** Every file that arrived before f has been released or has failed. */
  ghost predicate InTurn(s: State, f: File) {
    forall g :: g in s.arrived[..IndexOf(s.arrived, f)] ==> g in Gone(s)
  }

  /** isFirstFile never meets an empty list. A loader lets its file go exactly when the front of
      the list bears its name, and it is the file's turn, every earlier arrival having been
      released or having failed, exactly when the front is the file itself. */
  lemma ReleasedInTurn(c: Config, s: State, f: File)
    requires Reachable(c, s) && f in s.loaders && s.loaders[f].Waiting?
    ensures s.sortList != [] && f in s.sortList
    ensures Enabled(c, s, Release(f)) <==> s.sortList[0].name == f.name
    ensures InTurn(s, f) <==> s.sortList[0] == f
    ensures (forall g :: g in s.sortList && g.name == f.name ==> g == f) ==>
            (Enabled(c, s, Release(f)) <==> InTurn(s, f))
  {
    SortListExact(c, s);
    ReachableInv(c, s);
    FirstOfWithout(s.arrived, Gone(s), f);
  }

  lemma {:induction false} FirstOfWithout(list: seq<File>, gone: set<File>, f: File)
    requires f in list && f !in gone
    ensures Without(list, gone) != []
    ensures Without(list, gone)[0] == f <==>
            forall g :: g in list[..IndexOf(list, f)] ==> g in gone
  {
    if list[0] == f {
    } else {
      FirstOfWithout(list[1..], gone, f);
      var i := IndexOf(list, f);
      assert i == 1 + IndexOf(list[1..], f);
      assert list[..i] == [list[0]] + list[1..][..i - 1];
    }
  }

  // ----- two files of one name

  /** A crash has left a.xml, and the source that becomes a file of the same name. */
  ghost function Restarted(c: Config, a: File, b: File): State {
    State([b], [], [], {}, [a], [], map[], [a], [], Scan(c.cutoff, []), [a], {}, [], [], [], [])
  }

  /** The first is being parsed while the second is converted, loaded and parsed. */
  ghost function SecondReady(c: Config, a: File, b: File): State {
    State([], [], [], {}, [], [], map[a := Parsing, b := Waiting([])], [a, b], [], Scan(c.cutoff, []),
          [a, b], {}, [a, b], [], [], [])
  }

  lemma RestartReachable(c: Config, a: File, b: File)
    requires c.threads >= 1 && a != b
    ensures Reachable(c, Restarted(c, a, b))
  {
    var s := Restarted(c, a, b);
    assert Init(c, s, [b], [a]);
    assert Valid(c, s, []) && Exec(c, s, []) == s;
  }

  /** The first of the two is in a loader. */
  ghost function FirstLoading(c: Config, a: File, b: File): State {
    Restarted(c, a, b).(xmlQueue := [], loaders := map[a := Parsing], loaded := [a])
  }

  lemma FirstLoads(c: Config, a: File, b: File)
    requires c.threads >= 1 && a != b
    ensures Reachable(c, FirstLoading(c, a, b))
  {
    hide Reachable;
    RestartReachable(c, a, b);
    var s0 := Restarted(c, a, b);
    ReachableStep(c, s0, TakeXml);
    var s1 := Next(c, s0, TakeXml);
    ReachableStep(c, s1, SubmitXml);
    assert Next(c, s1, SubmitXml) == FirstLoading(c, a, b);
  }

  ghost function SecondConverted(c: Config, a: File, b: File): State {
    FirstLoading(c, a, b).(etlQueue := [], xmlQueue := [b], sortList := [a, b], arrived := [a, b])
  }

  lemma SecondConverts(c: Config, a: File, b: File)
    requires c.threads >= 1 && a != b
    ensures Reachable(c, SecondConverted(c, a, b))
  {
    hide Reachable;
    FirstLoads(c, a, b);
    var s0 := FirstLoading(c, a, b);
    ReachableStep(c, s0, TakeEtl);
    var s1 := Next(c, s0, TakeEtl);
    ReachableStep(c, s1, SubmitEtl);
    var s2 := Next(c, s1, SubmitEtl);
    ReachableStep(c, s2, ConvertOk(b));
    var s3 := Next(c, s2, ConvertOk(b));
    ReachableStep(c, s3, PushXml(b));
    assert Next(c, s3, PushXml(b)) == SecondConverted(c, a, b);
  }

  /** After a restart that finds a file and the source of another of the same name, the second
      can be released ahead of the first, whatever the number of threads. */
  lemma SameNameReleasedEarly(c: Config, a: File, b: File)
    requires c.threads >= 1 && a != b && a.name == b.name
    ensures Init(c, Restarted(c, a, b), [b], [a])
    ensures Reachable(c, SecondReady(c, a, b))
    ensures Enabled(c, SecondReady(c, a, b), Release(b)) && !InTurn(SecondReady(c, a, b), b)
  {
    hide Reachable;
    SecondConverts(c, a, b);
    var s0 := SecondConverted(c, a, b);
    ReachableStep(c, s0, TakeXml);
    var s1 := Next(c, s0, TakeXml);
    ReachableStep(c, s1, SubmitXml);
    var s2 := Next(c, s1, SubmitXml);
    ReachableStep(c, s2, Parsed(b, []));
    var s := SecondReady(c, a, b);
    assert Next(c, s2, Parsed(b, [])).loaders == s.loaders;
    assert Next(c, s2, Parsed(b, [])) == s;
    IndexIs(s.arrived, b, 1);
    assert a in s.arrived[..1];
  }

  // ----- send order against release order

  /** Released before sent[k] was, yet not sent before it. */
  ghost function Overtaken(s: State, k: nat): set<File>
    requires k < |s.sent|
  {
    Elements(s.released[..IndexOf(s.released, s.sent[k])]) - Elements(s.sent[..k])
  }

  ghost predicate DisorderBounded(c: Config, s: State) {
    forall k :: 0 <= k < |s.sent| ==> |Overtaken(s, k)| <= c.threads
  }

  lemma OldOvertaken(c: Config, s: State, l: Label, k: nat)
    requires Inv(c, s) && Enabled(c, s, l) && k < |s.sent|
    ensures s.sent <= Next(c, s, l).sent
    ensures Overtaken(Next(c, s, l), k) == Overtaken(s, k)
  {
    var t := Next(c, s, l);
    assert s.sent[k] in s.sent;
    IndexInPrefix(s.released, t.released, s.sent[k]);
    assert t.sent[..k] == s.sent[..k];
  }

  /** At a send, what was released earlier and is unsent holds another loader slot. */
  lemma SendOvertakes(c: Config, s: State, f: File)
    requires Inv(c, s) && Enabled(c, s, Send(f))
    ensures |Overtaken(Next(c, s, Send(f)), |s.sent|)| <= c.threads
  {
    var t := Next(c, s, Send(f));
    assert t.sent[..|s.sent|] == s.sent;
    var earlier := s.released[..IndexOf(s.released, f)];
    assert forall g :: g in earlier ==> g in s.released && g != f;
    var late, others := Overtaken(t, |s.sent|), s.loaders.Keys - {f};
    assert late <= others;
    SubsetCount(late, others);
  }

  lemma StepDisorder(c: Config, s: State, l: Label)
    requires Inv(c, s) && DisorderBounded(c, s) && Enabled(c, s, l)
    ensures DisorderBounded(c, Next(c, s, l))
  {
    var t := Next(c, s, l);
    forall k | 0 <= k < |t.sent| ensures |Overtaken(t, k)| <= c.threads {
      if k < |s.sent| {
        OldOvertaken(c, s, l, k);
      } else {
        SendOvertakes(c, s, l.f);
      }
    }
  }

  lemma {:induction false} RunDisorder(c: Config, s: State, ls: seq<Label>)
    requires Inv(c, s) && DisorderBounded(c, s) && Valid(c, s, ls)
    ensures DisorderBounded(c, Exec(c, s, ls))
    decreases |ls|
  {
    hide Next, Enabled, Inv, DisorderBounded;
    if ls != [] {
      StepInv(c, s, ls[0]);
      StepDisorder(c, s, ls[0]);
      RunDisorder(c, Next(c, s, ls[0]), ls[1..]);
    }
  }

  /** Over every run, at most threads files are released before another and sent after it. */
  lemma BoundedDisorder(c: Config, s: State, k: nat)
    requires Reachable(c, s) && k < |s.sent|
    ensures s.sent[k] in s.released
    ensures |Overtaken(s, k)| <= c.threads
  {
    ReachableInv(c, s);
    assert s.sent[k] in s.sent;
    var start, etls, xmls, ls :|
      Init(c, start, etls, xmls) && Valid(c, start, ls) && Exec(c, start, ls) == s;
    InitInv(c, start, etls, xmls);
    RunDisorder(c, start, ls);
  }

  /** At the moment a loader sends, at most threads other files are off the list and unsent,
      whether they were released before its own or after. */
  lemma FewUnsentAtSend(c: Config, s: State, f: File)
    requires Reachable(c, s) && Enabled(c, s, Send(f))
    ensures f in s.released && f !in s.sent
    ensures |Elements(s.released) - Elements(s.sent) - {f}| <= c.threads
  {
    ReachableInv(c, s);
    var late, others := Elements(s.released) - Elements(s.sent) - {f}, s.loaders.Keys - {f};
    assert late <= others;
    SubsetCount(late, others);
  }
}
