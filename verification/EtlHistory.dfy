/** The ETL pipeline's state told from the labels of the run that led to it. */
module EtlHistory {
  import opened Sequences
  import opened Records
  import opened EtlScanner
  import opened EtlPipeline
  import opened EtlOrder
  import opened EtlProgress
  import opened EtlStream

  /** The events in the life of a file that put it into or take it out of an ordered place. */
  datatype Kind = Queued | Converted | OffList | SentOn

  predicate Is(l: Label, k: Kind) {
    match k
    case Queued => l.Arrive?
    case Converted => l.PushXml?
    case OffList => l.ReadFail? || l.UnmarshalFail? || l.Release?
    case SentOn => l.Send?
  }

  /** The files of the labels of a kind, in the order of the run. */
  function FilesOf(ls: seq<Label>, k: Kind): seq<File> {
    if ls == [] then []
    else (if Is(ls[0], k) then [ls[0].f] else []) + FilesOf(ls[1..], k)
  }

  function Scans(ls: seq<Label>): nat {
    if ls == [] then 0 else (if ls[0].Scanned? then 1 else 0) + Scans(ls[1..])
  }

  /** t comes after s by the labels ls. */
  ghost predicate Follows(s: State, ls: seq<Label>, t: State) {
    && t.arrived + t.etlQueue == s.arrived + s.etlQueue + FilesOf(ls, Queued)
    && Pushed(t) == Pushed(s) + FilesOf(ls, Converted)
    && t.released == s.released + FilesOf(ls, OffList)
    && t.sent == s.sent + FilesOf(ls, SentOn)
    && |t.scanned| == |s.scanned| + Scans(ls)
    && (forall f :: f in t.failed <==> f in s.failed || ConvertFail(f) in ls)
  }

  lemma OneLabel(l: Label, k: Kind)
    ensures FilesOf([l], k) == if Is(l, k) then [l.f] else []
    ensures Scans([l]) == if l.Scanned? then 1 else 0
  {
    assert [l][1..] == [];
  }

  lemma StepFollows(c: Config, s: State, l: Label)
    requires Inv(c, s) && Enabled(c, s, l)
    ensures Follows(s, [l], Next(c, s, l))
  {
    hide Inv, FilesOf, Remove, Delta, CutoffAfter;
    OneLabel(l, Queued);
    OneLabel(l, Converted);
    OneLabel(l, OffList);
    OneLabel(l, SentOn);
    assert l.TakeEtl? ==> s.etlQueue == [s.etlQueue[0]] + s.etlQueue[1..];
    StepPushes(c, s, l);
  }

  lemma StepPushes(c: Config, s: State, l: Label)
    requires Inv(c, s) && Enabled(c, s, l)
    ensures Pushed(Next(c, s, l)) == Pushed(s) + if l.PushXml? then [l.f] else []
  {
    hide Remove, Delta, CutoffAfter, ConverterSide, LoaderSide, ScannerSide;
    var t := Next(c, s, l);
    if l.TakeXml? {
      assert s.pendingXml == [] && s.xmlQueue == [s.xmlQueue[0]] + s.xmlQueue[1..];
      assert Pushed(t) == Pushed(s);
    } else if l.SubmitXml? {
      assert s.pendingXml == [s.pendingXml[0]];
      assert Pushed(t) == Pushed(s);
    } else if l.PushXml? {
      assert Pushed(t) == Pushed(s) + [l.f];
    }
  }

  lemma FilesOfCons(l: Label, ls: seq<Label>, k: Kind)
    ensures FilesOf([l] + ls, k) == FilesOf([l], k) + FilesOf(ls, k)
    ensures Scans([l] + ls) == Scans([l]) + Scans(ls)
  {
    var all := [l] + ls;
    assert all[1..] == ls;
    OneLabel(l, k);
  }

  lemma FollowsOn(s: State, l: Label, m: State, ls: seq<Label>, t: State)
    requires Follows(s, [l], m) && Follows(m, ls, t)
    ensures Follows(s, [l] + ls, t)
  {
    hide FilesOf, Scans, Pushed;
    FilesOfCons(l, ls, Queued);
    FilesOfCons(l, ls, Converted);
    FilesOfCons(l, ls, OffList);
    FilesOfCons(l, ls, SentOn);
  }

  lemma {:induction false} RunFollows(c: Config, s: State, ls: seq<Label>)
    requires Inv(c, s) && Valid(c, s, ls)
    ensures Follows(s, ls, Exec(c, s, ls))
    decreases |ls|
  {
    hide Next, Enabled, Inv;
    if ls != [] {
      StepInv(c, s, ls[0]);
      StepFollows(c, s, ls[0]);
      var m := Next(c, s, ls[0]);
      RunFollows(c, m, ls[1..]);
      hide Follows;
      FollowsOn(s, ls[0], m, ls[1..], Exec(c, s, ls));
      assert [ls[0]] + ls[1..] == ls;
    }
  }

  /** Every queue is first in, first out, and the histories are those of the run: snapshots are
      listed in the order in which they were found or copied, files come to the loaders in the
      order in which their conversions ended, and what left the list or was sent is what the
      loaders' steps say, in their order. */
  lemma HistoryIsTheRuns(c: Config, start: State, etls: seq<File>, xmls: seq<File>, ls: seq<Label>)
    requires Init(c, start, etls, xmls) && Valid(c, start, ls)
    ensures var s := Exec(c, start, ls);
            s.arrived + s.etlQueue == xmls + etls + FilesOf(ls, Queued)
            && s.loaded + s.pendingXml + s.xmlQueue == xmls + FilesOf(ls, Converted)
            && s.released == FilesOf(ls, OffList) && s.sent == FilesOf(ls, SentOn)
            && |s.scanned| == Scans(ls)
            && (forall f :: f in s.failed <==> ConvertFail(f) in ls)
  {
    hide Valid, Exec, Inv;
    InitInv(c, start, etls, xmls);
    RunFollows(c, start, ls);
    assert Pushed(start) == xmls;
  }

  // ----- what was parsed

  /** The labels by which a loader ends its parsing, and the records it then holds. */
  predicate Parses(l: Label) {
    l.ReadFail? || l.UnmarshalFail? || l.Parsed?
  }

  function RecordsOf(l: Label): seq<Record>
    requires Parses(l)
  {
    if l.ReadFail? then [] else if l.UnmarshalFail? then l.partial else l.all
  }

  /** A loader holds these records of f, or they are on their way to the scanner or with it. */
  ghost predicate Holds(s: State, f: File, x: seq<Record>) {
    || (f in s.loaders && (s.loaders[f] == Waiting(x) || s.loaders[f] == Unsent(x)))
    || Batch(f, x) in s.events || Batch(f, x) in s.scanned
  }

  /** What is held is what the labels parsed, and all of it. */
  ghost predicate HoldsParsed(ls: seq<Label>, s: State) {
    && (forall l :: l in ls && Parses(l) ==> Holds(s, l.f, RecordsOf(l)))
    && (forall f, x :: Holds(s, f, x) ==> exists l :: l in ls && Parses(l) && l.f == f && RecordsOf(l) == x)
  }

  lemma StepHolds(c: Config, s: State, l: Label, f: File, x: seq<Record>)
    requires Inv(c, s) && Enabled(c, s, l)
    ensures Holds(Next(c, s, l), f, x)
            <==> Holds(s, f, x) || (Parses(l) && l.f == f && RecordsOf(l) == x)
  {
    hide Remove, Delta, CutoffAfter, ConverterSide, LoaderSide, ScannerSide;
    if l.SubmitXml? {
      FreshLoader(c, s);
    } else if l.Scanned? {
      assert s.events == [s.events[0]] + s.events[1..];
    }
  }

  lemma StepHoldsParsed(c: Config, done: seq<Label>, s: State, l: Label)
    requires Inv(c, s) && Enabled(c, s, l) && HoldsParsed(done, s)
    ensures HoldsParsed(done + [l], Next(c, s, l))
  {
    hide Inv, Enabled, Next, Holds;
    var t, all := Next(c, s, l), done + [l];
    forall m | m in all && Parses(m) ensures Holds(t, m.f, RecordsOf(m)) {
      StepHolds(c, s, l, m.f, RecordsOf(m));
    }
    forall f, x | Holds(t, f, x) ensures exists m :: m in all && Parses(m) && m.f == f && RecordsOf(m) == x {
      StepHolds(c, s, l, f, x);
      if Holds(s, f, x) {
        var m :| m in done && Parses(m) && m.f == f && RecordsOf(m) == x;
        assert m in all;
      } else {
        assert l in all;
      }
    }
  }

  lemma {:induction false} RunHoldsParsed(c: Config, done: seq<Label>, s: State, ls: seq<Label>)
    requires Inv(c, s) && Valid(c, s, ls) && HoldsParsed(done, s)
    ensures HoldsParsed(done + ls, Exec(c, s, ls))
    decreases |ls|
  {
    hide Next, Enabled, Inv, HoldsParsed;
    if ls == [] {
      assert done + ls == done;
    } else {
      StepInv(c, s, ls[0]);
      StepHoldsParsed(c, done, s, ls[0]);
      RunHoldsParsed(c, done + [ls[0]], Next(c, s, ls[0]), ls[1..]);
      assert done + [ls[0]] + ls[1..] == done + ls;
    }
  }

  /** Over every run, what loaders hold, what is queued for the scanner and what it has scanned
      is exactly what the loaders parsed: nothing after a failed read, the part that was filled
      after a failed parse, all of it otherwise. */
  lemma HeldIsParsed(c: Config, start: State, etls: seq<File>, xmls: seq<File>, ls: seq<Label>)
    requires Init(c, start, etls, xmls) && Valid(c, start, ls)
    ensures HoldsParsed(ls, Exec(c, start, ls))
  {
    hide Valid, Exec, Inv;
    InitInv(c, start, etls, xmls);
    assert HoldsParsed([], start);
    RunHoldsParsed(c, [], start, ls);
    assert [] + ls == ls;
  }

  /** A batch that was scanned or is queued comes from the one label that parsed its file. */
  lemma BatchIsParsed(c: Config, start: State, etls: seq<File>, xmls: seq<File>, ls: seq<Label>, b: Batch)
    requires Init(c, start, etls, xmls) && Valid(c, start, ls)
    requires var s := Exec(c, start, ls); b in s.scanned || b in s.events
    ensures exists l :: l in ls && Parses(l) && l.f == b.file && RecordsOf(l) == b.events
  {
    HeldIsParsed(c, start, etls, xmls, ls);
    assert Holds(Exec(c, start, ls), b.file, b.events);
  }

  lemma ScannedHolds(c: Config, s: State, f: File, x: seq<Record>)
    requires Inv(c, s) && Holds(s, f, x) && f in Files(s.scanned)
    ensures Batch(f, x) in s.scanned
  {
    hide Bounds, ConverterSide, ScanAll;
    assert s.sent == Files(s.scanned) + Files(s.events);
    DistinctParts(Files(s.scanned), Files(s.events));
    assert f in s.sent;
    forall i | 0 <= i < |s.events| ensures s.events[i].file in Files(s.events) {
      assert Files(s.events)[i] == s.events[i].file;
    }
  }

  /** And once a file has been scanned, what its loader parsed is what was scanned. */
  lemma ParsedIsScanned(c: Config, start: State, etls: seq<File>, xmls: seq<File>, ls: seq<Label>, l: Label)
    requires Init(c, start, etls, xmls) && Valid(c, start, ls)
    requires l in ls && Parses(l) && l.f in Files(Exec(c, start, ls).scanned)
    ensures Batch(l.f, RecordsOf(l)) in Exec(c, start, ls).scanned
  {
    hide Valid, Exec, Init, Holds, Inv;
    HeldIsParsed(c, start, etls, xmls, ls);
    InitInv(c, start, etls, xmls);
    RunInv(c, start, ls);
    ScannedHolds(c, Exec(c, start, ls), l.f, RecordsOf(l));
  }

  /** No loss, told from what the loaders parsed: with tied timestamps, in any interleaving,
      every record above the initial cutoff that a loader got out of a file, in full or in part,
      is emitted once the file has been scanned. */
  lemma ParsedIsNotLost(
    c: Config, log: seq<Record>, start: State, etls: seq<File>, xmls: seq<File>, ls: seq<Label>, l: Label, r: Record)
    requires Init(c, start, etls, xmls) && Valid(c, start, ls)
    requires NonDecreasing(log) && Distinct(log) && ParsesPrefixes(log, ls)
    requires l in ls && Parses(l) && l.f in Files(Exec(c, start, ls).scanned)
    requires r in RecordsOf(l) && Passes(c.cutoff, r)
    ensures r in Exec(c, start, ls).scan.out
  {
    hide Valid, Exec, Init, NonDecreasing, ParsesPrefixes, Passes;
    ParsedIsScanned(c, start, etls, xmls, ls, l);
    EveryRunLosesNothing(c, log, start, etls, xmls, ls, Batch(l.f, RecordsOf(l)), r);
  }

  lemma {:induction false} LongestIsOne(files: seq<seq<Record>>)
    ensures forall f :: f in files ==> |f| <= Longest(files)
    ensures Longest(files) == 0 || exists f :: f in files && |f| == Longest(files)
    decreases |files|
  {
    if files != [] {
      var init, last := files[..|files| - 1], Last(files);
      LongestIsOne(init);
      assert files == init + [last];
      assert forall f :: f in files <==> f in init || f == last;
    }
  }

  /** For prefixes of a strictly increasing log, the one stretch emitted reaches exactly as far as
      the longest of what the loaders parsed of the files scanned. */
  lemma StretchEndsWithLongestParsed(
    c: Config, log: seq<Record>, start: State, etls: seq<File>, xmls: seq<File>, ls: seq<Label>)
    returns (stop: nat)
    requires Init(c, start, etls, xmls) && Valid(c, start, ls)
    requires Ascending(log) && ParsesPrefixes(log, ls)
    ensures FirstNew(log, c.cutoff) <= stop <= |log|
    ensures Exec(c, start, ls).scan.out == log[FirstNew(log, c.cutoff)..stop]
    ensures var scanned := Files(Exec(c, start, ls).scanned);
            (forall l :: l in ls && Parses(l) && l.f in scanned ==> |RecordsOf(l)| <= stop)
            && (stop == FirstNew(log, c.cutoff)
                || exists l :: l in ls && Parses(l) && l.f in scanned && |RecordsOf(l)| == stop)
  {
    hide Valid, Exec, Init, FirstNew, Ascending, ParsesPrefixes, Longest;
    EveryRunEmitsOneStretch(c, log, start, etls, xmls, ls);
    var s := Exec(c, start, ls);
    var contents := Contents(s.scanned);
    LongestIsOne(contents);
    stop := Max(FirstNew(log, c.cutoff), Longest(contents));
    forall l | l in ls && Parses(l) && l.f in Files(s.scanned) ensures |RecordsOf(l)| <= stop {
      ParsedIsScanned(c, start, etls, xmls, ls, l);
      var i :| 0 <= i < |s.scanned| && s.scanned[i] == Batch(l.f, RecordsOf(l));
      assert contents[i] == RecordsOf(l);
    }
    if stop != FirstNew(log, c.cutoff) {
      var f :| f in contents && |f| == Longest(contents);
      var i :| 0 <= i < |contents| && contents[i] == f;
      var b := s.scanned[i];
      BatchIsParsed(c, start, etls, xmls, ls, b);
      assert Files(s.scanned)[i] == b.file;
    }
  }
}
