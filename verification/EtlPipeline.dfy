/** The concurrent ETL snapshot pipeline: converters, loaders gated by a shared sorted list,
    and one scanner, as a labelled step relation over all interleavings. */
module EtlPipeline {
  import opened Sequences
  import opened Records
  import opened EtlScanner

  /** A snapshot on its way: an element of the sorted list, which is an object of its own, and
      the name it holds. Two elements can hold one name: a crash after a conversion and before
      its source is removed leaves two files that become one name at start-up. */
  datatype File = File(id: nat, name: string)

  /** threads is transferThreads after its default: the converter pool has that many workers
      and the loader pool one more. */
  datatype Config = Config(threads: nat, path: string, cutoff: EventLogState)

  /** Capacity of etlLogfiles, xmlLogfiles and events. */
  const QUEUE := 20

  datatype Batch = Batch(file: File, events: seq<Record>)

  /** A loader task parses its file, then waits for the file to be first in the list, then
      sends; after a failed read or parse it goes straight to sending. */
  datatype Phase = Parsing | Waiting(parsed: seq<Record>) | Unsent(events: seq<Record>)

  datatype State = State(
    etlQueue: seq<File>,        // etlLogfiles
    pendingEtl: seq<File>,      // listed by transferETL, which is blocked in Submit
    converters: seq<File>,      // tasks of the converter pool
    converted: set<File>,       // those whose conversion succeeded, yet to push their file
    xmlQueue: seq<File>,        // xmlLogfiles
    pendingXml: seq<File>,      // taken by unmarshalETL, which is blocked in Submit
    loaders: map<File, Phase>,  // tasks of the loader pool
    sortList: seq<File>,
    events: seq<Batch>,         // the events channel
    scan: Scan,                 // the scanner's cutoff and all it put on records
    // history
    arrived: seq<File>,         // in the order in which they entered sortList
    failed: set<File>,          // conversion failed
    loaded: seq<File>,          // in the order in which loader tasks started
    released: seq<File>,        // in the order in which loaders took them off sortList
    sent: seq<File>,            // in the order in which they entered the events channel
    scanned: seq<Batch>)        // in the order in which the scanner took them

  datatype Label =
    | Arrive(f: File)           // Run copied a snapshot
    | TakeEtl | SubmitEtl       // transferETL
    | ConvertOk(f: File) | ConvertFail(f: File) | PushXml(f: File)      // a converter task
    | TakeXml | SubmitXml       // unmarshalETL
    | ReadFail(f: File) | UnmarshalFail(f: File, partial: seq<Record>)  // a loader task
    | Parsed(f: File, all: seq<Record>) | Release(f: File) | Send(f: File)
    | Scanned                   // scanXML

  /** loadFiles: names ending in .xml go on the list and the xml queue, the others wait for
      conversion. */
  ghost predicate Init(c: Config, s: State, etls: seq<File>, xmls: seq<File>) {
    && c.threads >= 1 && |etls| <= QUEUE && |xmls| <= QUEUE
    && Distinct(etls + xmls)
    && s == State(etls, [], [], {}, xmls, [], map[], xmls, [], Scan(c.cutoff, []),
                  xmls, {}, [], [], [], [])
  }

  predicate Enabled(c: Config, s: State, l: Label) {
    match l
    case Arrive(f) => |s.etlQueue| < QUEUE && f !in s.etlQueue && f !in s.arrived
    case TakeEtl => s.etlQueue != [] && s.pendingEtl == []
    case SubmitEtl => s.pendingEtl != [] && |s.converters| < c.threads
    case ConvertOk(f) => f in s.converters && f !in s.converted
    case ConvertFail(f) => f in s.converters && f !in s.converted
    case PushXml(f) => f in s.converters && f in s.converted && |s.xmlQueue| < QUEUE
    case TakeXml => s.xmlQueue != [] && s.pendingXml == []
    case SubmitXml => s.pendingXml != [] && |s.loaders| < c.threads + 1
    case ReadFail(f) => f in s.loaders && s.loaders[f].Parsing?
    case UnmarshalFail(f, _) => f in s.loaders && s.loaders[f].Parsing?
    case Parsed(f, _) => f in s.loaders && s.loaders[f].Parsing?
    case Release(f) => f in s.loaders && s.loaders[f].Waiting? && IsFirstFile(s.sortList, f)
    case Send(f) => f in s.loaders && s.loaders[f].Unsent? && |s.events| < QUEUE
    case Scanned => s.events != []
  }

  /** isFirstFile compares names. */
  predicate IsFirstFile(sortList: seq<File>, f: File) {
    sortList != [] && sortList[0].name == f.name
  }

  /** list.Remove of the element holding f. */
  function Remove(list: seq<File>, f: File): seq<File> {
    if list == [] then []
    else if list[0] == f then list[1..]
    else [list[0]] + Remove(list[1..], f)
  }

  /** A loader takes its file off the list and is left with events to send. */
  function TakeOffList(s: State, f: File, events: seq<Record>): State {
    s.(sortList := Remove(s.sortList, f), loaders := s.loaders[f := Unsent(events)],
       released := s.released + [f])
  }

  function Next(c: Config, s: State, l: Label): State
    requires Enabled(c, s, l)
  {
    match l
    case Arrive(f) => s.(etlQueue := s.etlQueue + [f])
    case TakeEtl =>
      var f := s.etlQueue[0];
      s.(etlQueue := s.etlQueue[1..], pendingEtl := [f],
         sortList := s.sortList + [f], arrived := s.arrived + [f])
    case SubmitEtl =>
      s.(pendingEtl := s.pendingEtl[1..], converters := s.converters + [s.pendingEtl[0]])
    case ConvertOk(f) => s.(converted := s.converted + {f})
    case ConvertFail(f) =>
      s.(converters := Remove(s.converters, f), sortList := Remove(s.sortList, f),
         failed := s.failed + {f})
    case PushXml(f) =>
      s.(converters := Remove(s.converters, f), converted := s.converted - {f},
         xmlQueue := s.xmlQueue + [f])
    case TakeXml => s.(xmlQueue := s.xmlQueue[1..], pendingXml := [s.xmlQueue[0]])
    case SubmitXml =>
      var f := s.pendingXml[0];
      s.(pendingXml := s.pendingXml[1..], loaders := s.loaders[f := Parsing],
         loaded := s.loaded + [f])
    case ReadFail(f) => TakeOffList(s, f, [])
    case UnmarshalFail(f, partial) => TakeOffList(s, f, partial)
    case Parsed(f, all) => s.(loaders := s.loaders[f := Waiting(all)])
    case Release(f) => TakeOffList(s, f, s.loaders[f].parsed)
    case Send(f) =>
      s.(loaders := s.loaders - {f}, events := s.events + [Batch(f, s.loaders[f].events)],
         sent := s.sent + [f])
    case Scanned =>
      var b := s.events[0];
      s.(events := s.events[1..], scanned := s.scanned + [b],
         scan := Scan(CutoffAfter(c.path, s.scan.cutoff, b.events),
                      s.scan.out + Delta(s.scan.cutoff, b.events)))
  }

  /** A run is any sequence of labels each of which is enabled in turn. */
  ghost predicate Valid(c: Config, s: State, ls: seq<Label>)
    decreases |ls|
  {
    ls == [] || (Enabled(c, s, ls[0]) && Valid(c, Next(c, s, ls[0]), ls[1..]))
  }

  ghost function Exec(c: Config, s: State, ls: seq<Label>): State
    requires Valid(c, s, ls)
    decreases |ls|
  {
    if ls == [] then s else Exec(c, Next(c, s, ls[0]), ls[1..])
  }

  // ----- the invariant

  /** Files that left the converters for the xml queue, in that order. */
  function Pushed(s: State): seq<File> {
    s.loaded + s.pendingXml + s.xmlQueue
  }

  /** Off the list: released by a loader, or lost in conversion. */
  function Gone(s: State): set<File> {
    Elements(s.released) + s.failed
  }

  ghost predicate Bounds(c: Config, s: State) {
    && c.threads >= 1
    && |s.pendingEtl| <= 1 && |s.converters| <= c.threads && |s.xmlQueue| <= QUEUE
    && |s.pendingXml| <= 1 && |s.loaders| <= c.threads + 1 && |s.events| <= QUEUE
  }

  ghost predicate ConverterSide(s: State) {
    && Distinct(s.etlQueue) && (forall f :: f in s.etlQueue ==> f !in s.arrived)
    && Distinct(s.arrived) && Distinct(s.converters) && Distinct(Pushed(s))
    && (forall f :: f in s.converted ==> f in s.converters)
    && (forall f :: f in s.arrived <==>
         f in s.pendingEtl || f in s.converters || f in s.failed || f in Pushed(s))
    && (forall f :: f in s.pendingEtl ==> f !in s.converters && f !in s.failed && f !in Pushed(s))
    && (forall f :: f in s.converters ==> f !in s.failed && f !in Pushed(s))
    && (forall f :: f in s.failed ==> f !in Pushed(s))
  }

  ghost predicate LoaderSide(s: State) {
    && (forall f :: f in s.loaded <==> f in s.loaders || f in s.sent)
    && (forall f :: f in s.loaders ==> f !in s.sent)
    && Distinct(s.sent) && Distinct(s.released)
    && (forall f :: f in s.released <==> f in s.sent || (f in s.loaders && s.loaders[f].Unsent?))
  }

  ghost predicate ScannerSide(c: Config, s: State) {
    && s.scan == ScanAll(c.path, c.cutoff, Contents(s.scanned))
    && s.sent == Files(s.scanned + s.events)
  }

  function Contents(bs: seq<Batch>): (r: seq<seq<Record>>)
    ensures |r| == |bs| && forall i :: 0 <= i < |bs| ==> r[i] == bs[i].events
  {
    seq(|bs|, i requires 0 <= i < |bs| => bs[i].events)
  }

  function Files(bs: seq<Batch>): (r: seq<File>)
    ensures |r| == |bs| && forall i :: 0 <= i < |bs| ==> r[i] == bs[i].file
  {
    seq(|bs|, i requires 0 <= i < |bs| => bs[i].file)
  }

  ghost predicate Inv(c: Config, s: State) {
    && Bounds(c, s) && ConverterSide(s) && LoaderSide(s) && ScannerSide(c, s)
    && s.sortList == Without(s.arrived, Gone(s))
  }

  // ----- every step keeps it

  lemma {:induction false} RemoveIsWithout(list: seq<File>, f: File)
    requires Distinct(list)
    ensures Remove(list, f) == Without(list, {f})
    ensures f in list ==> |Remove(list, f)| == |list| - 1
  {
    if list == [] {
    } else if list[0] == f {
      WithoutDisjoint(list[1..], {f});
    } else {
      RemoveIsWithout(list[1..], f);
    }
  }

  /** Taking f off the list and adding it to the gone files is the same thing. */
  lemma ListLosesFile(arrived: seq<File>, gone: set<File>, f: File)
    requires Distinct(arrived)
    ensures Remove(Without(arrived, gone), f) == Without(arrived, gone + {f})
  {
    WithoutMembers(arrived, gone);
    RemoveIsWithout(Without(arrived, gone), f);
    WithoutTwice(arrived, gone, {f});
  }

  lemma KeepsBounds(c: Config, s: State, l: Label)
    requires Inv(c, s) && Enabled(c, s, l)
    ensures Bounds(c, Next(c, s, l))
  {
    if l.ConvertFail? || l.PushXml? {
      RemoveIsWithout(s.converters, l.f);
    }
  }

  lemma EtlStepsKeepConverterSide(c: Config, s: State, l: Label)
    requires Inv(c, s) && Enabled(c, s, l)
    requires l.Arrive? || l.TakeEtl? || l.SubmitEtl?
    ensures ConverterSide(Next(c, s, l))
  {
    hide LoaderSide, ScannerSide;
    var t := Next(c, s, l);
    assert Pushed(t) == Pushed(s);
    match l {
      case Arrive(f) =>
      case TakeEtl =>
        assert s.etlQueue[0] in s.etlQueue;
        assert forall g :: g in s.etlQueue[1..] ==> g in s.etlQueue;
      case SubmitEtl =>
        assert s.pendingEtl == [s.pendingEtl[0]];
        assert s.pendingEtl[0] in s.pendingEtl;
        DistinctSnoc(s.converters, s.pendingEtl[0]);
    }
  }

  lemma LeavesConverter(converters: seq<File>, f: File)
    requires Distinct(converters)
    ensures Distinct(Remove(converters, f))
    ensures forall g :: g in Remove(converters, f) <==> g in converters && g != f
  {
    RemoveIsWithout(converters, f);
    WithoutMembers(converters, {f});
  }

  lemma ConvertFailKeepsConverterSide(c: Config, s: State, f: File)
    requires Inv(c, s) && Enabled(c, s, ConvertFail(f))
    ensures ConverterSide(Next(c, s, ConvertFail(f)))
  {
    hide LoaderSide, ScannerSide, Bounds, Remove, Without;
    LeavesConverter(s.converters, f);
    assert Pushed(Next(c, s, ConvertFail(f))) == Pushed(s);
  }

  lemma PushXmlKeepsConverterSide(c: Config, s: State, f: File)
    requires Inv(c, s) && Enabled(c, s, PushXml(f))
    ensures ConverterSide(Next(c, s, PushXml(f)))
  {
    hide LoaderSide, ScannerSide, Bounds, Remove, Without;
    LeavesConverter(s.converters, f);
    assert Pushed(Next(c, s, PushXml(f))) == Pushed(s) + [f];
  }

  lemma QueueStepsKeepConverterSide(c: Config, s: State, l: Label)
    requires Inv(c, s) && Enabled(c, s, l)
    requires l.ConvertOk? || l.TakeXml? || l.SubmitXml?
    ensures ConverterSide(Next(c, s, l))
  {
    hide LoaderSide, ScannerSide;
    assert l.SubmitXml? ==> s.pendingXml == [s.pendingXml[0]];
    assert Pushed(Next(c, s, l)) == Pushed(s);
  }

  lemma KeepsConverterSide(c: Config, s: State, l: Label)
    requires Inv(c, s) && Enabled(c, s, l)
    ensures ConverterSide(Next(c, s, l))
  {
    hide LoaderSide, ScannerSide, Bounds, Without;
    if l.Arrive? || l.TakeEtl? || l.SubmitEtl? {
      EtlStepsKeepConverterSide(c, s, l);
    } else if l.ConvertFail? {
      ConvertFailKeepsConverterSide(c, s, l.f);
    } else if l.PushXml? {
      PushXmlKeepsConverterSide(c, s, l.f);
    } else if l.ConvertOk? || l.TakeXml? || l.SubmitXml? {
      QueueStepsKeepConverterSide(c, s, l);
    } else {
      assert Pushed(Next(c, s, l)) == Pushed(s);
    }
  }

  lemma NewlyLoaded(s: State)
    requires Distinct(Pushed(s)) && s.pendingXml != []
    ensures s.pendingXml[0] !in s.loaded
  {
    var f := s.pendingXml[0];
    assert Pushed(s)[|s.loaded|] == f;
    assert forall i :: 0 <= i < |s.loaded| ==> Pushed(s)[i] == s.loaded[i];
  }

  lemma SubmitXmlKeepsLoaderSide(c: Config, s: State)
    requires LoaderSide(s) && Distinct(Pushed(s)) && Enabled(c, s, SubmitXml)
    ensures LoaderSide(Next(c, s, SubmitXml))
  {
    NewlyLoaded(s);
  }

  lemma KeepsLoaderSide(c: Config, s: State, l: Label)
    requires Inv(c, s) && Enabled(c, s, l)
    ensures LoaderSide(Next(c, s, l))
  {
    hide Bounds, ScannerSide, Without;
    if l.SubmitXml? {
      SubmitXmlKeepsLoaderSide(c, s);
    } else {
      TaskStepsKeepLoaderSide(c, s, l);
    }
  }

  lemma TaskStepsKeepLoaderSide(c: Config, s: State, l: Label)
    requires LoaderSide(s) && Enabled(c, s, l) && !l.SubmitXml?
    ensures LoaderSide(Next(c, s, l))
  {
  }

  lemma SendKeepsScannerSide(c: Config, s: State, f: File)
    requires ScannerSide(c, s) && Enabled(c, s, Send(f))
    ensures ScannerSide(c, Next(c, s, Send(f)))
  {
    var t := Next(c, s, Send(f));
    assert Files(t.scanned + t.events) == Files(s.scanned + s.events) + [f];
  }

  lemma ScanKeepsScannerSide(c: Config, s: State)
    requires ScannerSide(c, s) && Enabled(c, s, Scanned)
    ensures ScannerSide(c, Next(c, s, Scanned))
  {
    var t, b := Next(c, s, Scanned), s.events[0];
    assert Contents(t.scanned) == Contents(s.scanned) + [b.events];
    assert t.sent == Files(t.scanned + t.events) by {
      assert t.scanned + t.events == s.scanned + s.events;
    }
    ScanAllSnoc(c.path, c.cutoff, Contents(s.scanned), b.events);
  }

  lemma KeepsScannerSide(c: Config, s: State, l: Label)
    requires Inv(c, s) && Enabled(c, s, l)
    ensures ScannerSide(c, Next(c, s, l))
  {
    if l.Send? {
      SendKeepsScannerSide(c, s, l.f);
    } else if l.Scanned? {
      ScanKeepsScannerSide(c, s);
    }
  }

  lemma GoneArrived(c: Config, s: State)
    requires Inv(c, s)
    ensures forall f :: f in Gone(s) ==> f in s.arrived
  {
    forall f | f in s.released ensures f in s.arrived {
      assert f in s.loaded;
      assert f in Pushed(s);
    }
  }

  lemma TakeEtlKeepsList(c: Config, s: State)
    requires Inv(c, s) && Enabled(c, s, TakeEtl)
    ensures var t := Next(c, s, TakeEtl); t.sortList == Without(t.arrived, Gone(t))
  {
    hide Bounds, LoaderSide, ScannerSide;
    var f := s.etlQueue[0];
    assert f in s.etlQueue && f !in s.arrived && f !in Gone(s) by { GoneArrived(c, s); }
    WithoutConcat(s.arrived, [f], Gone(s));
    assert Without([f], Gone(s)) == [f];
  }

  lemma KeepsList(c: Config, s: State, l: Label)
    requires Inv(c, s) && Enabled(c, s, l)
    ensures var t := Next(c, s, l); t.sortList == Without(t.arrived, Gone(t))
  {
    hide Bounds, ScannerSide, Remove, Delta, CutoffAfter;
    var t := Next(c, s, l);
    match l {
      case TakeEtl => TakeEtlKeepsList(c, s);
      case ConvertFail(f) =>
        ListLosesFile(s.arrived, Gone(s), f);
        assert Gone(t) == Gone(s) + {f};
      case ReadFail(f) =>
        ListLosesFile(s.arrived, Gone(s), f);
        assert Gone(t) == Gone(s) + {f};
      case UnmarshalFail(f, _) =>
        ListLosesFile(s.arrived, Gone(s), f);
        assert Gone(t) == Gone(s) + {f};
      case Release(f) =>
        ListLosesFile(s.arrived, Gone(s), f);
        assert Gone(t) == Gone(s) + {f};
      case _ =>
        assert Gone(t) == Gone(s);
    }
  }

  lemma InitInv(c: Config, s: State, etls: seq<File>, xmls: seq<File>)
    requires Init(c, s, etls, xmls)
    ensures Inv(c, s)
  {
    assert Pushed(s) == xmls;
    DistinctParts(etls, xmls);
    assert ConverterSide(s);
    assert LoaderSide(s);
    assert Contents(s.scanned) == [] && Files(s.scanned + s.events) == [];
    assert ScannerSide(c, s);
    WithoutDisjoint(xmls, Gone(s));
  }

  lemma StepInv(c: Config, s: State, l: Label)
    requires Inv(c, s) && Enabled(c, s, l)
    ensures Inv(c, Next(c, s, l))
  {
    KeepsBounds(c, s, l);
    KeepsConverterSide(c, s, l);
    KeepsLoaderSide(c, s, l);
    KeepsScannerSide(c, s, l);
    KeepsList(c, s, l);
  }

  /** The invariant holds throughout every run. */
  lemma {:induction false} RunInv(c: Config, s: State, ls: seq<Label>)
    requires Inv(c, s) && Valid(c, s, ls)
    ensures Inv(c, Exec(c, s, ls))
    decreases |ls|
  {
    hide Next, Enabled;
    if ls != [] {
      StepInv(c, s, ls[0]);
      RunInv(c, Next(c, s, ls[0]), ls[1..]);
    }
  }

  ghost predicate Reachable(c: Config, s: State) {
    exists start, etls, xmls, ls ::
      Init(c, start, etls, xmls) && Valid(c, start, ls) && Exec(c, start, ls) == s
  }

  lemma ReachableInv(c: Config, s: State)
    requires Reachable(c, s)
    ensures Inv(c, s)
  {
    hide Next, Enabled;
    var start, etls, xmls, ls :|
      Init(c, start, etls, xmls) && Valid(c, start, ls) && Exec(c, start, ls) == s;
    InitInv(c, start, etls, xmls);
    RunInv(c, start, ls);
  }

  lemma {:induction false} ExecConcat(c: Config, s: State, a: seq<Label>, b: seq<Label>)
    requires Valid(c, s, a) && Valid(c, Exec(c, s, a), b)
    ensures Valid(c, s, a + b) && Exec(c, s, a + b) == Exec(c, Exec(c, s, a), b)
    decreases |a|
  {
    hide Next, Enabled;
    if a == [] {
      assert a + b == b;
    } else {
      ExecConcat(c, Next(c, s, a[0]), a[1..], b);
      assert (a + b)[1..] == a[1..] + b;
    }
  }

  lemma ReachableStep(c: Config, s: State, l: Label)
    requires Reachable(c, s) && Enabled(c, s, l)
    ensures Reachable(c, Next(c, s, l))
  {
    hide Next, Enabled;
    var start, etls, xmls, ls :|
      Init(c, start, etls, xmls) && Valid(c, start, ls) && Exec(c, start, ls) == s;
    assert Valid(c, Next(c, s, l), []);
    assert [l][1..] == [];
    assert Valid(c, s, [l]) && Exec(c, s, [l]) == Next(c, s, l);
    ExecConcat(c, start, ls, [l]);
  }
}
