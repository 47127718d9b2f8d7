/** From the ETL scanner to the syslog consumer. */
module EtlDelivery {
  import opened Sequences
  import opened Records
  import opened EtlScanner
  import opened EtlPipeline
  import EtlStream
  import SyslogConsumer
  import opened Delivery

  /** What the scanner puts on the records channel for a sequence of files, chunk by chunk. */
  function Emitted(path: string, cutoff: EventLogState, files: seq<seq<Record>>, size: nat): seq<seq<Record>>
    requires size >= 1
  {
    if files == [] then []
    else
      var init := files[..|files| - 1];
      Emitted(path, cutoff, init, size) + Chunks(Delta(ScanAll(path, cutoff, init).cutoff, Last(files)), size)
  }

  lemma EmittedSnoc(path: string, cutoff: EventLogState, files: seq<seq<Record>>, f: seq<Record>, size: nat)
    requires size >= 1
    ensures Emitted(path, cutoff, files + [f], size)
            == Emitted(path, cutoff, files, size) + Chunks(Delta(ScanAll(path, cutoff, files).cutoff, f), size)
  {
    assert (files + [f])[..|files|] == files;
  }

  lemma {:induction false} EmittedIsOut(path: string, cutoff: EventLogState, files: seq<seq<Record>>, size: nat)
    requires size >= 1
    ensures var batches := Emitted(path, cutoff, files, size);
            Flatten(batches) == ScanAll(path, cutoff, files).out && forall b :: b in batches ==> b != []
  {
    if files != [] {
      var init := files[..|files| - 1];
      EmittedIsOut(path, cutoff, init, size);
      var delta := Delta(ScanAll(path, cutoff, init).cutoff, Last(files));
      ChunksPartition(delta, size, 0);
      assert delta[0..] == delta;
      FlattenConcat(Emitted(path, cutoff, init, size), Chunks(delta, size));
    }
  }

  /** The scanner object over files one after the other puts out just these batches. */
  method ScanFiles(scanner: Scanner, files: seq<seq<Record>>)
    requires scanner.maxRead >= 1
    modifies scanner
    ensures scanner.records
         == old(scanner.records) + Emitted(scanner.logPath, old(scanner.state), files, scanner.maxRead)
    ensures scanner.state == ScanAll(scanner.logPath, old(scanner.state), files).cutoff
  {
    ghost var cutoff := scanner.state;
    for i := 0 to |files|
      invariant scanner.records
             == old(scanner.records) + Emitted(scanner.logPath, cutoff, files[..i], scanner.maxRead)
      invariant scanner.state == ScanAll(scanner.logPath, cutoff, files[..i]).cutoff
    {
      assert files[..i + 1] == files[..i] + [files[i]];
      EmittedSnoc(scanner.logPath, cutoff, files[..i], files[i], scanner.maxRead);
      ScanAllSnoc(scanner.logPath, cutoff, files[..i], files[i]);
      var _ := scanner.ScanFile(files[i]);
    }
    assert files[..|files|] == files;
  }

  // ----- when the consumer returns from arbitrary batches

  /** The chunks in which the consumer takes the batches. */
  function SyslogChunks(batches: seq<seq<Record>>): seq<seq<Record>> {
    if batches == [] then []
    else SyslogChunks(batches[..|batches| - 1]) + Chunks(Last(batches), SyslogConsumer.CHUNK)
  }

  function EndTime(chunk: seq<Record>): int {
    if chunk == [] then 0 else Last(chunk).timestamp
  }

  /** The chunks' last records are newer than the cutoff and strictly rise. */
  ghost predicate EndsRise(cutoff: int, chunks: seq<seq<Record>>) {
    && (forall i :: 0 <= i < |chunks| ==> cutoff < EndTime(chunks[i]))
    && (forall i, j :: 0 <= i < j < |chunks| ==> EndTime(chunks[i]) < EndTime(chunks[j]))
  }

  function EndOf(cutoff: int, chunks: seq<seq<Record>>): int {
    if chunks == [] then cutoff else EndTime(Last(chunks))
  }

  lemma {:induction false} SyslogChunksOf(cutoff: int, batches: seq<seq<Record>>)
    ensures forall c :: c in SyslogChunks(batches) ==> c != []
    ensures Flatten(SyslogChunks(batches)) == Flatten(batches)
    ensures ConsumerCutoff(cutoff, batches) == EndOf(cutoff, SyslogChunks(batches))
    decreases |batches|
  {
    if batches != [] {
      var init, last := batches[..|batches| - 1], Last(batches);
      SyslogChunksOf(cutoff, init);
      ChunksPartition(last, SyslogConsumer.CHUNK, 0);
      assert last[0..] == last && batches == init + [last];
      FlattenConcat(SyslogChunks(init), Chunks(last, SyslogConsumer.CHUNK));
      FlattenConcat(init, [last]);
      FlattenOne(last);
    }
  }

  lemma EndsRiseConcat(cutoff: int, a: seq<seq<Record>>, b: seq<seq<Record>>)
    ensures EndsRise(cutoff, a + b) <==> EndsRise(cutoff, a) && EndsRise(EndOf(cutoff, a), b)
  {
    if EndsRise(cutoff, a + b) {
      RiseApart(cutoff, a, b);
    }
    if EndsRise(cutoff, a) && EndsRise(EndOf(cutoff, a), b) {
      RiseTogether(cutoff, a, b);
    }
  }

  lemma RiseApart(cutoff: int, a: seq<seq<Record>>, b: seq<seq<Record>>)
    requires EndsRise(cutoff, a + b)
    ensures EndsRise(cutoff, a) && EndsRise(EndOf(cutoff, a), b)
  {
    hide EndTime;
    var all, n := a + b, |a|;
    forall i | 0 <= i < n ensures all[i] == a[i] {}
    forall i | 0 <= i < |b| ensures all[n + i] == b[i] {}
    forall i, j | 0 <= i < j < n ensures EndTime(a[i]) < EndTime(a[j]) {
      assert EndTime(all[i]) < EndTime(all[j]);
    }
    forall i, j | 0 <= i < j < |b| ensures EndTime(b[i]) < EndTime(b[j]) {
      assert EndTime(all[n + i]) < EndTime(all[n + j]);
    }
    forall i | 0 <= i < |b| ensures EndOf(cutoff, a) < EndTime(b[i]) {
      assert cutoff < EndTime(all[n + i]);
      assert n > 0 ==> EndTime(all[n - 1]) < EndTime(all[n + i]);
    }
  }

  lemma RiseTogether(cutoff: int, a: seq<seq<Record>>, b: seq<seq<Record>>)
    requires EndsRise(cutoff, a) && EndsRise(EndOf(cutoff, a), b)
    ensures EndsRise(cutoff, a + b)
  {
    hide EndTime;
    var all, n := a + b, |a|;
    assert forall i :: 0 <= i < |all| ==> all[i] == if i < n then a[i] else b[i - n];
    assert n > 0 ==> cutoff < EndTime(a[n - 1]);
    forall i | 0 <= i < n ensures EndTime(a[i]) <= EndOf(cutoff, a) {
      assert i == n - 1 || EndTime(a[i]) < EndTime(a[n - 1]);
    }
  }

  lemma {:induction false} BatchEndsRise(events: seq<Record>, start: nat, cutoff: int)
    requires start <= |events|
    ensures SyslogConsumer.ChunkEndsRise(events, start, cutoff)
            <==> EndsRise(cutoff, ChunksFrom(events, SyslogConsumer.CHUNK, start))
    decreases |events| - start
  {
    hide EndsRise;
    if start == |events| {
      NoEnds(cutoff);
    } else {
      var (records, end) := ReadChunk(events, SyslogConsumer.CHUNK, start);
      var rest := ChunksFrom(events, SyslogConsumer.CHUNK, end);
      BatchEndsRise(events, end, Last(records).timestamp);
      EndsRiseConcat(cutoff, [records], rest);
      OneEnd(cutoff, records);
    }
  }

  lemma NoEnds(cutoff: int)
    ensures EndsRise(cutoff, [])
  {
  }

  lemma OneEnd(cutoff: int, records: seq<Record>)
    requires records != []
    ensures EndsRise(cutoff, [records]) <==> cutoff < Last(records).timestamp
    ensures EndOf(cutoff, [records]) == Last(records).timestamp
  {
    assert [records][0] == records;
  }

  lemma AllReturnSnoc(cutoff: int, batches: seq<seq<Record>>)
    requires batches != []
    ensures var init := batches[..|batches| - 1];
            AllReturn(cutoff, batches) <==>
            AllReturn(cutoff, init) && SyslogConsumer.Returns(Last(batches), 0, ConsumerCutoff(cutoff, init))
  {
    hide SyslogConsumer.Returns, ConsumerCutoff;
    var init := batches[..|batches| - 1];
    assert forall k :: 0 <= k < |init| ==> init[k] == batches[k] && init[..k] == batches[..k];
    if AllReturn(cutoff, batches) {
      forall k | 0 <= k < |init| ensures SyslogConsumer.Returns(init[k], 0, ConsumerCutoff(cutoff, init[..k])) {
        assert SyslogConsumer.Returns(batches[k], 0, ConsumerCutoff(cutoff, batches[..k]));
      }
      assert SyslogConsumer.Returns(batches[|init|], 0, ConsumerCutoff(cutoff, batches[..|init|]));
    }
    if AllReturn(cutoff, init) && SyslogConsumer.Returns(Last(batches), 0, ConsumerCutoff(cutoff, init)) {
      forall k | 0 <= k < |batches|
        ensures SyslogConsumer.Returns(batches[k], 0, ConsumerCutoff(cutoff, batches[..k]))
      {
        if k < |init| {
          assert SyslogConsumer.Returns(init[k], 0, ConsumerCutoff(cutoff, init[..k]));
        }
      }
    }
  }

  /** On any batches at all the consumer returns from each exactly when the ends of its chunks,
      over all batches, strictly rise above its first cutoff. */
  lemma {:induction false} ReturnsIffEndsRise(cutoff: int, batches: seq<seq<Record>>)
    ensures AllReturn(cutoff, batches) <==> EndsRise(cutoff, SyslogChunks(batches))
    decreases |batches|
  {
    hide SyslogConsumer.Returns, EndsRise, AllReturn, ConsumerCutoff;
    SyslogChunksOf(cutoff, batches);
    if batches == [] {
      NoBatches(cutoff);
    } else {
      var init, last := batches[..|batches| - 1], Last(batches);
      var c := ConsumerCutoff(cutoff, init);
      ReturnsIffEndsRise(cutoff, init);
      SyslogChunksOf(cutoff, init);
      AllReturnSnoc(cutoff, batches);
      SyslogConsumer.ReturnsIffChunkEndsRise(last, c);
      BatchEndsRise(last, 0, c);
      EndsRiseConcat(cutoff, SyslogChunks(init), Chunks(last, SyslogConsumer.CHUNK));
    }
  }

  lemma NoBatches(cutoff: int)
    ensures AllReturn(cutoff, []) && EndsRise(cutoff, [])
  {
  }

  // ----- over every run of the pipeline

  /** What a run has put on the records channel. */
  ghost function EmittedBy(c: Config, s: State, size: nat): seq<seq<Record>>
    requires size >= 1
  {
    Emitted(c.path, c.cutoff, Contents(s.scanned), size)
  }

  /** Whatever the files hold, in every interleaving and for every chunk size of the scanner, the
      consumer returns from all that is emitted exactly when its chunks' ends strictly rise. */
  lemma EveryRunReturnsIffEndsRise(c: Config, s: State, size: nat, consumerCutoff: int)
    requires Reachable(c, s) && size >= 1
    ensures var batches := EmittedBy(c, s, size);
            Flatten(batches) == s.scan.out
            && (AllReturn(consumerCutoff, batches) <==> EndsRise(consumerCutoff, SyslogChunks(batches)))
  {
    hide Reachable, AllReturn, EndsRise;
    ReachableInv(c, s);
    EmittedIsOut(c.path, c.cutoff, Contents(s.scanned), size);
    ReturnsIffEndsRise(consumerCutoff, EmittedBy(c, s, size));
  }

  lemma StretchAscends(log: seq<Record>, cutoff: EventLogState, stop: nat)
    requires Ascending(log) && FirstNew(log, cutoff) <= stop <= |log|
    ensures var s := log[FirstNew(log, cutoff)..stop];
            Ascending(s) && forall r :: r in s ==> cutoff.timestamp - 1 < r.timestamp
  {
    var first := FirstNew(log, cutoff);
    var s := log[first..stop];
    assert forall i :: 0 <= i < |s| ==> s[i] == log[first + i];
    forall r | r in s ensures cutoff.timestamp - 1 < r.timestamp {
      var k :| 0 <= k < |s| && s[k] == r;
      assert k == 0 || log[first].timestamp < log[first + k].timestamp;
    }
  }

  lemma EmittedRises(
    c: Config, log: seq<Record>, start: State, etls: seq<File>, xmls: seq<File>, ls: seq<Label>, size: nat)
    requires Init(c, start, etls, xmls) && Valid(c, start, ls) && size >= 1
    requires Ascending(log) && EtlStream.ParsesPrefixes(log, ls)
    ensures var batches := EmittedBy(c, Exec(c, start, ls), size);
            Rising(c.cutoff.timestamp - 1, batches) && Flatten(batches) == Exec(c, start, ls).scan.out
  {
    hide Valid, Exec, Init, Longest, Contents, Ascending, FirstNew, Emitted, EtlStream.ParsesPrefixes;
    var s := Exec(c, start, ls);
    InitInv(c, start, etls, xmls);
    RunInv(c, start, ls);
    EtlStream.EveryRunEmitsOneStretch(c, log, start, etls, xmls, ls);
    EmittedIsOut(c.path, c.cutoff, Contents(s.scanned), size);
    StretchAscends(log, c.cutoff, Max(FirstNew(log, c.cutoff), Longest(Contents(s.scanned))));
  }

  /** For snapshots that are prefixes of a log with strictly increasing timestamps, in every
      interleaving and for every chunk size: what is emitted is a rising stream from the scanner's
      cutoff on; the consumer returns from all of it exactly when its cutoff is below the end of
      the first chunk it gets; and then each record newer than that cutoff is attempted exactly
      once if and only if a client could be made for every chunk. */
  lemma RisingLogIsDelivered(
    c: Config, log: seq<Record>, start: State, etls: seq<File>, xmls: seq<File>, ls: seq<Label>, size: nat,
    consumerCutoff: int, sent: seq<seq<Record>>, clients: seq<bool>)
    requires Init(c, start, etls, xmls) && Valid(c, start, ls) && size >= 1
    requires Ascending(log) && EtlStream.ParsesPrefixes(log, ls)
    requires SyslogConsumer.AllAttempts(
               sent, Offered(consumerCutoff, EmittedBy(c, Exec(c, start, ls), size)), clients)
    ensures var batches := EmittedBy(c, Exec(c, start, ls), size);
            Rising(c.cutoff.timestamp - 1, batches) && Flatten(batches) == Exec(c, start, ls).scan.out
            && (AllReturn(consumerCutoff, batches) <==> Ready(consumerCutoff, batches))
            && (consumerCutoff < c.cutoff.timestamp ==> Ready(consumerCutoff, batches))
            && (Ready(consumerCutoff, batches) ==>
                  (multiset(Flatten(sent)) == multiset(SyslogConsumer.Newer(consumerCutoff, Flatten(batches)))
                   <==> AllMade(clients)))
  {
    hide AllReturn, Ready, SyslogConsumer.AllAttempts;
    var s, low := Exec(c, start, ls), c.cutoff.timestamp - 1;
    var batches := EmittedBy(c, s, size);
    EmittedRises(c, log, start, etls, xmls, ls, size);
    ReturnsIffReady(low, consumerCutoff, batches);
    if consumerCutoff <= low {
      BelowIsReady(low, consumerCutoff, batches);
    }
    if Ready(consumerCutoff, batches) {
      OfferedStream(low, consumerCutoff, batches);
      AttemptedIffClients(consumerCutoff, sent, Offered(consumerCutoff, batches), clients);
    }
  }

  // ----- ties

  /** Two records of the same time, in two snapshots one after the other: the scanner emits them
      as two batches, and the consumer never returns from the second. */
  lemma TieIsNotDelivered(path: string, cutoff: EventLogState, a: Record, b: Record, size: nat, consumerCutoff: int)
    requires cutoff.timestamp < a.timestamp == b.timestamp && a != b && size >= 1
    ensures Emitted(path, cutoff, [[a], [a, b]], size) == [[a], [b]]
    ensures !AllReturn(consumerCutoff, Emitted(path, cutoff, [[a], [a, b]], size))
  {
    TieIsEmitted(path, cutoff, a, b, size);
    var batches := [[a], [b]];
    OneChunk(a, SyslogConsumer.CHUNK);
    OneChunk(b, SyslogConsumer.CHUNK);
    assert batches[..1] == [[a]] && batches[..1][..0] == [];
    assert SyslogChunks([[a]]) == [[a]] by { assert [[a]][..0] == []; }
    assert SyslogChunks(batches) == [[a], [b]];
    ReturnsIffEndsRise(consumerCutoff, batches);
    TieDoesNotRise(consumerCutoff, a, b);
  }

  lemma TieIsEmitted(path: string, cutoff: EventLogState, a: Record, b: Record, size: nat)
    requires cutoff.timestamp < a.timestamp == b.timestamp && a != b && size >= 1
    ensures Emitted(path, cutoff, [[a], [a, b]], size) == [[a], [b]]
  {
    hide Chunks;
    assert [a][1..] == [] && [a, b][1..] == [b] && [b][1..] == [];
    assert Delta(cutoff, [a]) == [a] + Delta(cutoff, []);
    ScanAllSnoc(path, cutoff, [], [a]);
    EmittedSnoc(path, cutoff, [], [a], size);
    assert [] + [[a]] == [[a]] && [[a]] + [[a, b]] == [[a], [a, b]];
    var now := CutoffAt(path, a);
    assert CutoffAfter(path, cutoff, [a]) == now;
    assert Delta(now, [b]) == [b] + Delta(now, []);
    assert Delta(now, [a, b]) == [] + Delta(now, [a, b][1..]);
    EmittedSnoc(path, cutoff, [[a]], [a, b], size);
    OneChunk(a, size);
    OneChunk(b, size);
    assert ScanAll(path, cutoff, []) == Scan(cutoff, []) && ScanAll(path, cutoff, [[a]]).cutoff == now;
    assert Delta(cutoff, [a]) == [a] && Delta(now, [a, b]) == [b];
    assert Emitted(path, cutoff, [], size) == [];
    assert Emitted(path, cutoff, [] + [[a]], size) == [] + Chunks([a], size);
    assert Emitted(path, cutoff, [[a]], size) == [[a]];
    assert Emitted(path, cutoff, [[a], [a, b]], size) == [[a]] + [[b]];
  }

  lemma OneChunk(r: Record, size: nat)
    requires size >= 1
    ensures Chunks([r], size) == [[r]]
  {
    var (chunk, end) := ReadChunk([r], size, 0);
    assert end == 1 && chunk == [r];
    assert ChunksFrom([r], size, 1) == [];
  }

  lemma TieDoesNotRise(cutoff: int, a: Record, b: Record)
    requires a.timestamp == b.timestamp
    ensures !EndsRise(cutoff, [[a], [b]])
  {
    var chunks := [[a], [b]];
    assert Last(chunks[0]).timestamp == Last(chunks[1]).timestamp;
  }

  /** Two start-up files f and g, in a run as far as both are loaded. */
  ghost function BothLoaded(c: Config, f: File, g: File): State {
    State([], [], [], {}, [], [], map[f := Parsing, g := Parsing], [f, g], [], Scan(c.cutoff, []),
          [f, g], {}, [f, g], [], [], [])
  }

  lemma LoadsBoth(c: Config, f: File, g: File)
    requires c.threads >= 1 && f != g
    ensures Reachable(c, BothLoaded(c, f, g))
  {
    hide Reachable;
    var s0 := BothLoaded(c, f, g).(xmlQueue := [f, g], loaders := map[], loaded := []);
    assert Reachable(c, s0) by { StartsWith(c, s0, f, g); }
    ReachableStep(c, s0, TakeXml);
    var s1 := Next(c, s0, TakeXml);
    ReachableStep(c, s1, SubmitXml);
    var s2 := s0.(xmlQueue := [g], loaders := map[f := Parsing], loaded := [f]);
    assert Next(c, s1, SubmitXml) == s2;
    ReachableStep(c, s2, TakeXml);
    var s3 := Next(c, s2, TakeXml);
    ReachableStep(c, s3, SubmitXml);
    assert Next(c, s3, SubmitXml) == BothLoaded(c, f, g);
  }

  lemma StartsWith(c: Config, s: State, f: File, g: File)
    requires c.threads >= 1 && f != g
    requires s == BothLoaded(c, f, g).(xmlQueue := [f, g], loaders := map[], loaded := [])
    ensures Reachable(c, s)
  {
    assert Init(c, s, [], [f, g]);
    assert Valid(c, s, []) && Exec(c, s, []) == s;
  }

  /** Both have been parsed and released in turn. */
  ghost function BothReleased(c: Config, f: File, g: File, x: seq<Record>, y: seq<Record>): State {
    BothLoaded(c, f, g).(loaders := map[f := Unsent(x), g := Unsent(y)], sortList := [], released := [f, g])
  }

  lemma ReleasesBoth(c: Config, f: File, g: File, x: seq<Record>, y: seq<Record>)
    requires c.threads >= 1 && f != g
    ensures Reachable(c, BothReleased(c, f, g, x, y))
  {
    hide Reachable;
    LoadsBoth(c, f, g);
    var s0 := BothLoaded(c, f, g);
    ReachableStep(c, s0, Parsed(f, x));
    var s1 := Next(c, s0, Parsed(f, x));
    ReachableStep(c, s1, Parsed(g, y));
    var s2 := s0.(loaders := map[f := Waiting(x), g := Waiting(y)]);
    assert Next(c, s1, Parsed(g, y)) == s2;
    ReachableStep(c, s2, Release(f));
    var s3 := s2.(loaders := map[f := Unsent(x), g := Waiting(y)], sortList := [g], released := [f]);
    assert [f, g][1..] == [g];
    assert Next(c, s2, Release(f)) == s3;
    ReachableStep(c, s3, Release(g));
    assert Next(c, s3, Release(g)) == BothReleased(c, f, g, x, y);
  }

  /** Both have been sent and scanned. */
  lemma ScansBoth(c: Config, f: File, g: File, x: seq<Record>, y: seq<Record>) returns (s: State)
    requires c.threads >= 1 && f != g
    ensures Reachable(c, s) && Contents(s.scanned) == [x, y]
  {
    hide Reachable, Delta, CutoffAfter;
    ReleasesBoth(c, f, g, x, y);
    var s0 := BothReleased(c, f, g, x, y);
    ReachableStep(c, s0, Send(f));
    var s1 := s0.(loaders := map[g := Unsent(y)], events := [Batch(f, x)], sent := [f]);
    assert Next(c, s0, Send(f)) == s1;
    ReachableStep(c, s1, Send(g));
    var s2 := s1.(loaders := map[], events := [Batch(f, x), Batch(g, y)], sent := [f, g]);
    assert Next(c, s1, Send(g)) == s2;
    ReachableStep(c, s2, Scanned);
    var s3 := Next(c, s2, Scanned);
    assert s3.events == [Batch(g, y)] && s3.scanned == [Batch(f, x)];
    ReachableStep(c, s3, Scanned);
    s := Next(c, s3, Scanned);
    assert s.scanned == [Batch(f, x), Batch(g, y)];
  }

  /** So with ties some run of every configuration, on prefixes of one log in time order, leaves
      a consumer stuck, whatever its cutoff. */
  lemma TieCanHang(c: Config, a: Record, b: Record, size: nat)
    requires c.threads >= 1 && size >= 1
    requires c.cutoff.timestamp < a.timestamp == b.timestamp && a != b
    ensures exists s :: Reachable(c, s) && Contents(s.scanned) == [[a], [a, b]]
              && forall k :: !AllReturn(k, EmittedBy(c, s, size))
  {
    hide Reachable, AllReturn;
    var s := ScansBoth(c, File(0, "f"), File(1, "g"), [a], [a, b]);
    forall k ensures !AllReturn(k, EmittedBy(c, s, size)) {
      TieIsNotDelivered(c.path, c.cutoff, a, b, size, k);
    }
  }
}
