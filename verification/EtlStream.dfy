/** What the ETL pipeline puts on the records channel over whole runs. */
module EtlStream {
  import opened Sequences
  import opened Records
  import opened EtlScanner
  import opened EtlPipeline

  /** Every file a loader parses, fully or in part, is a prefix of the log. */
  ghost predicate ParsesPrefixes(log: seq<Record>, ls: seq<Label>) {
    forall l :: l in ls ==>
      (l.UnmarshalFail? ==> l.partial <= log) && (l.Parsed? ==> l.all <= log)
  }

  ghost predicate HoldsPrefixes(log: seq<Record>, s: State) {
    && (forall f :: f in s.loaders ==> s.loaders[f].Waiting? ==> s.loaders[f].parsed <= log)
    && (forall f :: f in s.loaders ==> s.loaders[f].Unsent? ==> s.loaders[f].events <= log)
    && (forall b :: b in s.events ==> b.events <= log)
    && (forall b :: b in s.scanned ==> b.events <= log)
  }

  lemma StepPrefixes(c: Config, log: seq<Record>, s: State, l: Label)
    requires HoldsPrefixes(log, s) && Enabled(c, s, l) && ParsesPrefixes(log, [l])
    ensures HoldsPrefixes(log, Next(c, s, l))
  {
    assert l in [l];
    if l.Scanned? {
      assert s.events[0] in s.events;
    }
  }

  lemma {:induction false} RunPrefixes(c: Config, log: seq<Record>, s: State, ls: seq<Label>)
    requires HoldsPrefixes(log, s) && Valid(c, s, ls) && ParsesPrefixes(log, ls)
    ensures HoldsPrefixes(log, Exec(c, s, ls))
    decreases |ls|
  {
    hide Next, Enabled, HoldsPrefixes;
    if ls != [] {
      assert ls[0] in ls;
      StepPrefixes(c, log, s, ls[0]);
      RunPrefixes(c, log, Next(c, s, ls[0]), ls[1..]);
    }
  }

  lemma RunScans(c: Config, log: seq<Record>, start: State, etls: seq<File>, xmls: seq<File>, ls: seq<Label>)
    requires Init(c, start, etls, xmls) && Valid(c, start, ls) && ParsesPrefixes(log, ls)
    ensures var end := Exec(c, start, ls);
            end.scan == ScanAll(c.path, c.cutoff, Contents(end.scanned))
            && AllPrefixes(log, Contents(end.scanned))
  {
    hide Valid, Exec, Enabled, Next, ScanAll, ParsesPrefixes;
    InitInv(c, start, etls, xmls);
    RunInv(c, start, ls);
    RunPrefixes(c, log, start, ls);
    ScannedPrefixes(log, Exec(c, start, ls));
  }

  lemma ScannedPrefixes(log: seq<Record>, s: State)
    requires HoldsPrefixes(log, s)
    ensures AllPrefixes(log, Contents(s.scanned))
  {
    var scanned := s.scanned;
    forall f | f in Contents(scanned) ensures f <= log {
      var i :| 0 <= i < |scanned| && Contents(scanned)[i] == f;
      assert scanned[i] in scanned;
    }
  }

  /** Every interleaving of converters, loaders and scanner, with any failures, emits one
      contiguous stretch of the log: from the first record past the initial cutoff to the end
      of the longest snapshot scanned, in log order, each record once. */
  lemma EveryRunEmitsOneStretch(
    c: Config, log: seq<Record>, start: State, etls: seq<File>, xmls: seq<File>, ls: seq<Label>)
    requires Init(c, start, etls, xmls) && Valid(c, start, ls)
    requires Ascending(log) && ParsesPrefixes(log, ls)
    ensures var end := Exec(c, start, ls);
            var first := FirstNew(log, c.cutoff);
            var stop := Max(first, Longest(Contents(end.scanned)));
            stop <= |log| && end.scan.out == log[first..stop] && Distinct(end.scan.out)
  {
    hide Valid, Exec, FirstNew, ScanAll;
    RunScans(c, log, start, etls, xmls, ls);
    ContiguousStretch(c.path, log, c.cutoff, Contents(Exec(c, start, ls).scanned));
  }

  /** With tied timestamps, still nothing of a scanned snapshot above the initial cutoff is
      lost, in any interleaving. */
  lemma EveryRunLosesNothing(
    c: Config, log: seq<Record>, start: State, etls: seq<File>, xmls: seq<File>, ls: seq<Label>,
    b: Batch, r: Record)
    requires Init(c, start, etls, xmls) && Valid(c, start, ls)
    requires NonDecreasing(log) && Distinct(log) && ParsesPrefixes(log, ls)
    requires b in Exec(c, start, ls).scanned && r in b.events && Passes(c.cutoff, r)
    ensures r in Exec(c, start, ls).scan.out
  {
    RunScans(c, log, start, etls, xmls, ls);
    var scanned := Exec(c, start, ls).scanned;
    var i :| 0 <= i < |scanned| && scanned[i] == b;
    assert Contents(scanned)[i] == b.events;
    TiesNothingLost(c.path, log, c.cutoff, Contents(scanned), b.events, r);
  }

  /** And when the scanner lets a record through a second time, its timestamp is that of the
      cutoff it is compared with. */
  lemma EveryRunRedeliversOnlyTies(
    c: Config, log: seq<Record>, start: State, etls: seq<File>, xmls: seq<File>, ls: seq<Label>, r: Record)
    requires Init(c, start, etls, xmls) && Valid(c, start, ls)
    requires NonDecreasing(log) && ParsesPrefixes(log, ls)
    requires Enabled(c, Exec(c, start, ls), Scanned)
    requires var s := Exec(c, start, ls);
             r in s.scan.out && r in Delta(s.scan.cutoff, s.events[0].events)
    ensures r.timestamp == Exec(c, start, ls).scan.cutoff.timestamp
  {
    RunScans(c, log, start, etls, xmls, ls);
    var s := Exec(c, start, ls);
    TiesRedeliverOnlyAtCutoff(c.path, log, c.cutoff, Contents(s.scanned), s.events[0].events, r);
  }

  /** On arbitrary input the cutoff's timestamp never goes back, from any step to the next. */
  lemma StepCutoffNeverDecreases(c: Config, s: State, l: Label)
    requires Enabled(c, s, l)
    ensures s.scan.cutoff.timestamp <= Next(c, s, l).scan.cutoff.timestamp
    ensures s.scan.out <= Next(c, s, l).scan.out
  {
    if l.Scanned? {
      CutoffNeverDecreases(c.path, s.scan.cutoff, s.events[0].events);
    }
  }
}
