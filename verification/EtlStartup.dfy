/** Which start-up files let the ETL pipeline release a file out of turn. */
module EtlStartup {
  import opened Sequences
  import opened Records
  import opened EtlScanner
  import opened EtlPipeline
  import opened EtlOrder

  ghost predicate NoArrivals(ls: seq<Label>) {
    forall l :: l in ls ==> !l.Arrive?
  }

  /** Some run without new arrivals goes from s to t. */
  ghost predicate Leads(c: Config, s: State, t: State) {
    exists ls :: NoArrivals(ls) && Valid(c, s, ls) && Exec(c, s, ls) == t
  }

  lemma LeadsNowhere(c: Config, s: State)
    ensures Leads(c, s, s)
  {
    assert NoArrivals([]) && Valid(c, s, []) && Exec(c, s, []) == s;
  }

  lemma LeadsOn(c: Config, start: State, s: State, l: Label)
    requires Leads(c, start, s) && Enabled(c, s, l) && !l.Arrive?
    ensures Leads(c, start, Next(c, s, l))
  {
    hide Next, Enabled;
    var ls :| NoArrivals(ls) && Valid(c, start, ls) && Exec(c, start, ls) == s;
    assert Valid(c, Next(c, s, l), []) && [l][1..] == [];
    assert Valid(c, s, [l]) && Exec(c, s, [l]) == Next(c, s, l);
    ExecConcat(c, start, ls, [l]);
    assert NoArrivals(ls + [l]);
  }

  ghost predicate DistinctNames(files: seq<File>) {
    forall i, j :: 0 <= i < j < |files| ==> files[i].name != files[j].name
  }

  /** A loader may let its file go although an earlier arrival is still on its way. */
  ghost predicate OutOfTurn(c: Config, s: State) {
    exists f ::
      f in s.loaders && s.loaders[f].Waiting? && Enabled(c, s, Release(f)) && !InTurn(s, f)
  }

  // ----- distinct names are enough

  ghost predicate AllFrom(files: seq<File>, s: State) {
    (forall f :: f in s.arrived ==> f in files) && (forall f :: f in s.etlQueue ==> f in files)
  }

  lemma {:induction false} RunAllFrom(c: Config, files: seq<File>, s: State, ls: seq<Label>)
    requires AllFrom(files, s) && Valid(c, s, ls) && NoArrivals(ls)
    ensures AllFrom(files, Exec(c, s, ls))
    decreases |ls|
  {
    hide Next, Enabled, AllFrom;
    if ls != [] {
      assert ls[0] in ls && NoArrivals(ls[1..]);
      StepAllFrom(c, files, s, ls[0]);
      RunAllFrom(c, files, Next(c, s, ls[0]), ls[1..]);
    }
  }

  lemma StepAllFrom(c: Config, files: seq<File>, s: State, l: Label)
    requires AllFrom(files, s) && Enabled(c, s, l) && !l.Arrive?
    ensures AllFrom(files, Next(c, s, l))
  {
    if l.TakeEtl? {
      assert s.etlQueue[0] in s.etlQueue;
    }
  }

  lemma LedReachable(c: Config, start: State, etls: seq<File>, xmls: seq<File>, s: State)
    requires Init(c, start, etls, xmls) && Leads(c, start, s)
    ensures Reachable(c, s) && AllFrom(xmls + etls, s)
  {
    var ls :| NoArrivals(ls) && Valid(c, start, ls) && Exec(c, start, ls) == s;
    RunAllFrom(c, xmls + etls, start, ls);
  }

  lemma EarlyMeansSameName(c: Config, start: State, etls: seq<File>, xmls: seq<File>, s: State)
    requires Init(c, start, etls, xmls) && Leads(c, start, s) && OutOfTurn(c, s)
    ensures !DistinctNames(xmls + etls)
  {
    LedReachable(c, start, etls, xmls, s);
    hide Leads, Init, Reachable;
    var f :| f in s.loaders && s.loaders[f].Waiting? && Enabled(c, s, Release(f)) && !InTurn(s, f);
    ReleasedInTurn(c, s, f);
    hide Enabled, InTurn;
    ListedFrom(c, xmls + etls, s);
    TwoOfOneName(xmls + etls, s.sortList[0], f);
  }

  lemma ListedFrom(c: Config, files: seq<File>, s: State)
    requires Reachable(c, s) && AllFrom(files, s)
    ensures forall f :: f in s.sortList ==> f in files
  {
    SortListExact(c, s);
    WithoutMembers(s.arrived, Gone(s));
  }

  lemma TwoOfOneName(files: seq<File>, a: File, b: File)
    requires a in files && b in files && a != b && a.name == b.name
    ensures !DistinctNames(files)
  {
    var i :| 0 <= i < |files| && files[i] == a;
    var j :| 0 <= j < |files| && files[j] == b;
    assert i < j || j < i;
  }

  // ----- two files of one name

  /** Nothing but xml files xs and sources es is left in the queues; some files are in loaders,
      and front is the list without xs. */
  ghost predicate At(s: State, xs: seq<File>, es: seq<File>, loaders: map<File, Phase>, front: seq<File>) {
    && s.etlQueue == es && s.xmlQueue == xs && s.pendingEtl == [] && s.pendingXml == []
    && s.converters == [] && s.converted == {} && s.events == []
    && s.loaders == loaders && s.sortList == front + xs
  }

  lemma {:induction false} RemoveAfter(front: seq<File>, f: File, rest: seq<File>)
    requires f !in front
    ensures Remove(front + [f] + rest, f) == front + rest
  {
    if front == [] {
      assert [] + [f] + rest == [f] + rest && [] + rest == rest;
    } else {
      RemoveAfter(front[1..], f, rest);
      var list := front + [f] + rest;
      assert list[1..] == front[1..] + [f] + rest;
      assert [front[0]] + (front[1..] + rest) == front + rest;
    }
  }

  lemma LoadXml(c: Config, start: State, s: State, xs: seq<File>, es: seq<File>,
                loaders: map<File, Phase>, front: seq<File>) returns (t: State)
    requires Leads(c, start, s) && At(s, xs, es, loaders, front) && xs != []
    requires |loaders| <= c.threads && xs[0] !in loaders
    ensures Leads(c, start, t) && At(t, xs[1..], es, loaders[xs[0] := Parsing], front + [xs[0]])
  {
    hide Leads;
    LeadsOn(c, start, s, TakeXml);
    var s1 := Next(c, s, TakeXml);
    LeadsOn(c, start, s1, SubmitXml);
    t := Next(c, s1, SubmitXml);
    assert front + xs == front + [xs[0]] + xs[1..];
  }

  lemma SkipXml(c: Config, start: State, s: State, xs: seq<File>, es: seq<File>,
                loaders: map<File, Phase>, front: seq<File>) returns (t: State)
    requires Leads(c, start, s) && At(s, xs, es, loaders, front) && xs != []
    requires |loaders| <= c.threads && xs[0] !in loaders && xs[0] !in front
    ensures Leads(c, start, t) && At(t, xs[1..], es, loaders, front)
  {
    hide Leads, Delta, CutoffAfter;
    var f := xs[0];
    var s1 := LoadXml(c, start, s, xs, es, loaders, front);
    LeadsOn(c, start, s1, ReadFail(f));
    var s2 := Next(c, s1, ReadFail(f));
    RemoveAfter(front, f, xs[1..]);
    LeadsOn(c, start, s2, Send(f));
    var s3 := Next(c, s2, Send(f));
    assert s3.loaders == loaders;
    LeadsOn(c, start, s3, Scanned);
    t := Next(c, s3, Scanned);
  }

  /** A source as far as its conversion. */
  lemma StartEtl(c: Config, start: State, s: State, es: seq<File>,
                 loaders: map<File, Phase>, front: seq<File>) returns (t: State)
    requires Leads(c, start, s) && At(s, [], es, loaders, front) && es != [] && c.threads >= 1
    ensures Leads(c, start, t) && t.converters == [es[0]]
    ensures At(t.(converters := []), [], es[1..], loaders, front + [es[0]])
  {
    hide Leads;
    LeadsOn(c, start, s, TakeEtl);
    var s1 := Next(c, s, TakeEtl);
    LeadsOn(c, start, s1, SubmitEtl);
    t := Next(c, s1, SubmitEtl);
  }

  lemma SkipEtl(c: Config, start: State, s: State, es: seq<File>,
                loaders: map<File, Phase>, front: seq<File>) returns (t: State)
    requires Leads(c, start, s) && At(s, [], es, loaders, front) && es != [] && c.threads >= 1
    requires es[0] !in front
    ensures Leads(c, start, t) && At(t, [], es[1..], loaders, front)
  {
    hide Leads;
    var f := es[0];
    var s1 := StartEtl(c, start, s, es, loaders, front);
    LeadsOn(c, start, s1, ConvertFail(f));
    t := Next(c, s1, ConvertFail(f));
    RemoveAfter(front, f, []);
    assert front + [f] + [] == front + [f] && front + [] == front;
  }

  lemma LoadEtl(c: Config, start: State, s: State, es: seq<File>,
                loaders: map<File, Phase>, front: seq<File>) returns (t: State)
    requires Leads(c, start, s) && At(s, [], es, loaders, front) && es != [] && c.threads >= 1
    requires |loaders| <= c.threads && es[0] !in loaders
    ensures Leads(c, start, t) && At(t, [], es[1..], loaders[es[0] := Parsing], front + [es[0]])
  {
    hide Leads;
    var f := es[0];
    var s1 := StartEtl(c, start, s, es, loaders, front);
    LeadsOn(c, start, s1, ConvertOk(f));
    var s2 := Next(c, s1, ConvertOk(f));
    LeadsOn(c, start, s2, PushXml(f));
    var s3 := Next(c, s2, PushXml(f));
    assert front + [f] + [] == front + [f];
    assert At(s3, [f], es[1..], loaders, front);
    t := LoadXml(c, start, s3, [f], es[1..], loaders, front);
  }

  /** The next file in the order of arrival is loaded, and parsed for as long as we like. */
  lemma LoadNext(c: Config, start: State, s: State, xs: seq<File>, es: seq<File>,
                 loaders: map<File, Phase>, front: seq<File>)
    returns (t: State, ys: seq<File>, ds: seq<File>)
    requires Leads(c, start, s) && At(s, xs, es, loaders, front) && c.threads >= 1
    requires xs + es != [] && |loaders| <= c.threads && (xs + es)[0] !in loaders
    ensures ys + ds == (xs + es)[1..]
    ensures Leads(c, start, t) && At(t, ys, ds, loaders[(xs + es)[0] := Parsing], front + [(xs + es)[0]])
  {
    hide Leads, At;
    if xs != [] {
      t := LoadXml(c, start, s, xs, es, loaders, front);
      ys, ds := xs[1..], es;
    } else {
      t := LoadEtl(c, start, s, es, loaders, front);
      ys, ds := [], es[1..];
    }
  }

  /** Or its conversion or reading fails, and it is gone. */
  lemma {:induction false} SkipFiles(c: Config, start: State, s: State, xs: seq<File>, es: seq<File>,
                                     loaders: map<File, Phase>, front: seq<File>, n: nat)
    returns (t: State, ys: seq<File>, ds: seq<File>)
    requires Leads(c, start, s) && At(s, xs, es, loaders, front) && c.threads >= 1
    requires n <= |xs + es| && |loaders| <= c.threads
    requires forall f :: f in (xs + es)[..n] ==> f !in loaders && f !in front
    ensures ys + ds == (xs + es)[n..]
    ensures Leads(c, start, t) && At(t, ys, ds, loaders, front)
    decreases n
  {
    hide Leads, At;
    if n == 0 {
      return s, xs, es;
    }
    var all := xs + es;
    assert all[..n][0] == all[0];
    var s1: State;
    if xs != [] {
      s1 := SkipXml(c, start, s, xs, es, loaders, front);
      ys, ds := xs[1..], es;
    } else {
      s1 := SkipEtl(c, start, s, es, loaders, front);
      ys, ds := [], es[1..];
    }
    assert ys + ds == all[1..];
    assert forall f :: f in all[1..][..n - 1] ==> f in all[..n];
    t, ys, ds := SkipFiles(c, start, s1, ys, ds, loaders, front, n - 1);
  }

  lemma InitAt(c: Config, s: State, etls: seq<File>, xmls: seq<File>)
    requires Init(c, s, etls, xmls)
    ensures At(s, xmls, etls, map[], []) && c.threads >= 1
  {
    assert [] + xmls == xmls;
  }

  lemma FilesBetween(files: seq<File>, i: nat, j: nat)
    requires i < j < |files| && Distinct(files)
    ensures files[i..][1..] == files[i + 1..] && files[i + 1..][j - i - 1..] == files[j..]
    ensures files[i] !in files[i + 1..][..j - i - 1] && files[i] != files[j]
  {
    var between := files[i + 1..][..j - i - 1];
    assert forall k :: 0 <= k < |between| ==> between[k] == files[i + 1 + k];
  }

  /** b, which has just been loaded, is parsed. */
  lemma ParsesLast(c: Config, start: State, s: State, xs: seq<File>, es: seq<File>, a: File, b: File)
    returns (t: State)
    requires Leads(c, start, s) && a != b
    requires At(s, xs, es, map[a := Parsing][b := Parsing], [a] + [b])
    ensures Leads(c, start, t) && t.sortList != [] && t.sortList[0] == a
    ensures b in t.loaders && t.loaders[b].Waiting?
  {
    hide Leads;
    LeadsOn(c, start, s, Parsed(b, []));
    t := Next(c, s, Parsed(b, []));
  }

  /** Everything before the first of two files of one name fails, the first stays in its loader,
      everything between fails, and the second is parsed. */
  lemma SecondWaits(c: Config, start: State, etls: seq<File>, xmls: seq<File>, i: nat, j: nat)
    returns (t: State)
    requires Init(c, start, etls, xmls) && i < j < |xmls + etls| && Distinct(xmls + etls)
    ensures var a, b := (xmls + etls)[i], (xmls + etls)[j];
            Leads(c, start, t) && t.sortList != [] && t.sortList[0] == a
            && b in t.loaders && t.loaders[b].Waiting?
  {
    hide Leads, At, Distinct;
    var files := xmls + etls;
    var a, b := files[i], files[j];
    LeadsNowhere(c, start);
    InitAt(c, start, etls, xmls);
    FilesBetween(files, i, j);
    hide Init;
    var s, xs, es := SkipFiles(c, start, start, xmls, etls, map[], [], i);
    s, xs, es := LoadNext(c, start, s, xs, es, map[], []);
    assert [] + [a] == [a] && map[][a := Parsing] == map[a := Parsing];
    s, xs, es := SkipFiles(c, start, s, xs, es, map[a := Parsing], [a], j - i - 1);
    s, xs, es := LoadNext(c, start, s, xs, es, map[a := Parsing], [a]);
    t := ParsesLast(c, start, s, xs, es, a, b);
  }

  lemma SameNameMeansEarly(c: Config, start: State, etls: seq<File>, xmls: seq<File>) returns (t: State)
    requires Init(c, start, etls, xmls) && !DistinctNames(xmls + etls)
    ensures Leads(c, start, t) && OutOfTurn(c, t)
  {
    hide Leads, Reachable;
    var files := xmls + etls;
    var i, j :| 0 <= i < j < |files| && files[i].name == files[j].name;
    DistinctSwap(etls, xmls);
    t := SecondWaits(c, start, etls, xmls, i, j);
    LedReachable(c, start, etls, xmls, t);
    ReleasedInTurn(c, t, files[j]);
    assert files[i] != files[j];
  }

  lemma DistinctSwap(a: seq<File>, b: seq<File>)
    requires Distinct(a + b)
    ensures Distinct(b + a)
  {
    DistinctParts(a, b);
    var s := b + a;
    forall i, j | 0 <= i < j < |s| ensures s[i] != s[j] {
      if i < |b| <= j {
        assert s[j] == a[j - |b|] && s[j] in a;
      } else if i >= |b| {
        assert s[i] == a[i - |b|] && s[j] == a[j - |b|];
      }
    }
  }

  /** From the files found at start-up, and with no new snapshot, some run gets to release a file
      out of turn exactly when two of them lead to one name, whatever the number of threads. */
  lemma EarlyReleaseIffSameName(c: Config, start: State, etls: seq<File>, xmls: seq<File>)
    requires Init(c, start, etls, xmls)
    ensures (exists t :: Leads(c, start, t) && OutOfTurn(c, t)) <==> !DistinctNames(xmls + etls)
  {
    hide Leads, OutOfTurn, DistinctNames, Init;
    if !DistinctNames(xmls + etls) {
      var t := SameNameMeansEarly(c, start, etls, xmls);
    }
    if t: State :| Leads(c, start, t) && OutOfTurn(c, t) {
      EarlyMeansSameName(c, start, etls, xmls, t);
    }
  }
}
