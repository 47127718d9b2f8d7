/** From the channel reader through the manager to the syslog consumer. */
module Delivery {
  import opened Sequences
  import opened Records
  import ChannelReader
  import SyslogConsumer
  import FanOut

  /** The consumer over a sequence of batches: its cutoff after them. */
  function ConsumerCutoff(cutoff: int, batches: seq<seq<Record>>): int {
    if batches == [] then cutoff
    else
      var last := Last(batches);
      if last == [] then ConsumerCutoff(cutoff, batches[..|batches| - 1]) else Last(last).timestamp
  }

  /** What reaches the sender tasks of the consumer, chunk by chunk. */
  function Offered(cutoff: int, batches: seq<seq<Record>>): seq<SyslogConsumer.Guarded>
  {
    if batches == [] then []
    else
      var init := batches[..|batches| - 1];
      Offered(cutoff, init) + SyslogConsumer.GuardedChunks(Last(batches), 0, ConsumerCutoff(cutoff, init))
  }

  /** Every batch is one that HandleEvents returns from. */
  ghost predicate AllReturn(cutoff: int, batches: seq<seq<Record>>) {
    forall k :: 0 <= k < |batches| ==>
      SyslogConsumer.Returns(batches[k], 0, ConsumerCutoff(cutoff, batches[..k]))
  }

  /** Batches that are one strictly rising stream above a cutoff. */
  ghost predicate Rising(cutoff: int, batches: seq<seq<Record>>) {
    && (forall b :: b in batches ==> b != [])
    && Ascending(Flatten(batches))
    && (forall r :: r in Flatten(batches) ==> cutoff < r.timestamp)
  }

  lemma BatchesRise(state: EventLogState, results: seq<ChannelReader.ReadResult>)
    ensures Rising(state.timestamp, ChannelReader.Batches(state, results))
  {
    ChannelReader.StreamIsBatchingFree(state, results);
    ChannelReader.CutoffIsLastKept(state.timestamp, ChannelReader.RawEvents(results));
    NoEmptyBatch(state, results);
  }

  lemma {:induction false} NoEmptyBatch(state: EventLogState, results: seq<ChannelReader.ReadResult>)
    ensures forall b :: b in ChannelReader.Batches(state, results) ==> b != []
    decreases |results|
  {
    if results != [] {
      NoEmptyBatch(ChannelReader.StateAfter(state, results[0].events, results[0].bookmark), results[1..]);
    }
  }

  // ----- one rising stream

  lemma {:induction false} InFlatten<T>(ss: seq<seq<T>>, b: seq<T>, r: T)
    requires b in ss && r in b
    ensures r in Flatten(ss)
  {
    if ss[0] != b {
      InFlatten(ss[1..], b, r);
    }
  }

  /** The last batch of a rising stream: it rises, above all before it. */
  lemma LastBatchRises(cutoff: int, batches: seq<seq<Record>>)
    requires Rising(cutoff, batches) && batches != []
    ensures Rising(cutoff, batches[..|batches| - 1])
    ensures Last(batches) != [] && Ascending(Last(batches))
    ensures forall r :: r in Last(batches) ==> cutoff < r.timestamp
    ensures forall q, r :: q in Flatten(batches[..|batches| - 1]) && r in Last(batches) ==> q.timestamp < r.timestamp
  {
    var init, last := batches[..|batches| - 1], Last(batches);
    assert Flatten(batches) == Flatten(init) + last by {
      assert batches == init + [last];
      FlattenConcat(init, [last]);
      FlattenOne(last);
    }
    assert last in batches && forall b :: b in init ==> b in batches;
    SplitAscending(Flatten(init), last);
    assert forall r :: r in Flatten(init) || r in last ==> r in Flatten(init) + last;
  }

  lemma SplitAscending(a: seq<Record>, b: seq<Record>)
    requires Ascending(a + b)
    ensures Ascending(a) && Ascending(b)
    ensures forall q, r :: q in a && r in b ==> q.timestamp < r.timestamp
  {
    var all := a + b;
    assert forall i :: 0 <= i < |a| ==> a[i] == all[i];
    assert forall i :: 0 <= i < |b| ==> b[i] == all[|a| + i];
  }

  lemma CutoffFromStream(cutoff: int, batches: seq<seq<Record>>)
    requires forall b :: b in batches ==> b != []
    ensures batches == [] ==> ConsumerCutoff(cutoff, batches) == cutoff
    ensures batches != [] ==> exists r :: r in Flatten(batches) && r.timestamp == ConsumerCutoff(cutoff, batches)
  {
    if batches != [] {
      var last := Last(batches);
      assert last in batches && Last(last) in last;
      InFlatten(batches, last, Last(last));
    }
  }

  lemma AllAreNewer(cutoff: int, records: seq<Record>)
    requires forall r :: r in records ==> cutoff < r.timestamp
    ensures SyslogConsumer.Newer(cutoff, records) == records
    decreases |records|
  {
    if records != [] {
      AllAreNewer(cutoff, records[1..]);
    }
  }

  lemma FirstChunkNewer(events: seq<Record>, start: nat, cutoff: int)
    requires Ascending(events) && start < |events|
    requires forall i :: start <= i < |events| ==> cutoff < events[i].timestamp
    ensures var (records, end) := ReadChunk(events, SyslogConsumer.CHUNK, start);
            SyslogConsumer.Newer(cutoff, records) == records
            && forall i :: end <= i < |events| ==> Last(records).timestamp < events[i].timestamp
  {
    hide SyslogConsumer.Newer;
    var (records, end) := ReadChunk(events, SyslogConsumer.CHUNK, start);
    forall r | r in records ensures cutoff < r.timestamp {
      var k :| 0 <= k < |records| && records[k] == r;
      assert r == events[start + k];
    }
    AllAreNewer(cutoff, records);
    var last := end - 1;
    assert Last(records) == events[last];
    assert forall i :: end <= i < |events| ==> events[last].timestamp < events[i].timestamp;
  }

  lemma RecordsConcat(a: seq<SyslogConsumer.Guarded>, b: seq<SyslogConsumer.Guarded>)
    ensures SyslogConsumer.RecordsOf(a + b) == SyslogConsumer.RecordsOf(a) + SyslogConsumer.RecordsOf(b)
  {
  }

  // ----- on which streams the consumer returns

  /** Where the first chunk of the first batch ends. */
  function FirstEnd(batches: seq<seq<Record>>): int
    requires batches != [] && batches[0] != []
  {
    var first := batches[0];
    first[(if |first| < SyslogConsumer.CHUNK then |first| else SyslogConsumer.CHUNK) - 1].timestamp
  }

  /** Nothing has been sent, or the consumer's cutoff is below the first chunk's end. */
  ghost predicate Ready(cutoff: int, batches: seq<seq<Record>>) {
    batches != [] ==> batches[0] != [] && cutoff < FirstEnd(batches)
  }

  lemma ReadyPrefix(cutoff: int, batches: seq<seq<Record>>, n: nat)
    requires n <= |batches| && Ready(cutoff, batches)
    ensures Ready(cutoff, batches[..n])
  {
  }

  /** The last batch of a rising stream, for a consumer that was ready and has handled the
      others: its first chunk ends above the cutoff, and past the first batch all of it is. */
  lemma LastBatchAhead(low: int, cutoff: int, batches: seq<seq<Record>>)
    requires Rising(low, batches) && batches != [] && Ready(cutoff, batches)
    ensures var init, last := batches[..|batches| - 1], Last(batches);
            var c := ConsumerCutoff(cutoff, init);
            cutoff <= c && last != [] && Ascending(last)
            && c < FirstEnd([last])
            && (init == [] || forall r :: r in last ==> c < r.timestamp)
  {
    LastBatchRises(low, batches);
    var init, last := batches[..|batches| - 1], Last(batches);
    CutoffFromStream(cutoff, init);
    if init != [] {
      assert batches[0] == init[0];
      ReadyPrefix(cutoff, batches, |init|);
      CutoffRises(low, cutoff, init);
      assert forall i :: 0 <= i < |last| ==> last[i] in last;
    }
  }

  /** A ready consumer ends above where it began. */
  lemma CutoffRises(low: int, cutoff: int, batches: seq<seq<Record>>)
    requires Rising(low, batches) && batches != [] && Ready(cutoff, batches)
    ensures cutoff < ConsumerCutoff(cutoff, batches)
    decreases |batches|
  {
    var init, last := batches[..|batches| - 1], Last(batches);
    LastBatchRises(low, batches);
    if init == [] {
      assert last == batches[0];
      var e := (if |last| < SyslogConsumer.CHUNK then |last| else SyslogConsumer.CHUNK) - 1;
      assert last[e].timestamp <= Last(last).timestamp;
    } else {
      assert batches[0] == init[0];
      CutoffRises(low, cutoff, init);
      CutoffFromStream(cutoff, init);
      assert Last(last) in last;
    }
  }

  lemma {:induction false} ReadyReturns(low: int, cutoff: int, batches: seq<seq<Record>>)
    requires Rising(low, batches) && Ready(cutoff, batches)
    ensures AllReturn(cutoff, batches)
    decreases |batches|
  {
    hide Rising, SyslogConsumer.Returns;
    if batches != [] {
      var init, last := batches[..|batches| - 1], Last(batches);
      LastBatchRises(low, batches);
      ReadyPrefix(cutoff, batches, |init|);
      ReadyReturns(low, cutoff, init);
      LastBatchAhead(low, cutoff, batches);
      SyslogConsumer.OrderedBatchReturns(last, ConsumerCutoff(cutoff, init));
      forall k | 0 <= k < |batches|
        ensures SyslogConsumer.Returns(batches[k], 0, ConsumerCutoff(cutoff, batches[..k]))
      {
        if k < |init| {
          assert init[..k] == batches[..k];
          assert SyslogConsumer.Returns(init[k], 0, ConsumerCutoff(cutoff, init[..k]));
        }
      }
    }
  }

  /** On a rising stream the consumer returns from every batch exactly when its cutoff is below
      the end of the first chunk of the first batch. */
  lemma ReturnsIffReady(low: int, cutoff: int, batches: seq<seq<Record>>)
    requires Rising(low, batches)
    ensures AllReturn(cutoff, batches) <==> Ready(cutoff, batches)
  {
    if Ready(cutoff, batches) {
      ReadyReturns(low, cutoff, batches);
    }
    if AllReturn(cutoff, batches) && batches != [] {
      assert batches[..0] == [] && batches[0] in batches;
      assert SyslogConsumer.Returns(batches[0], 0, ConsumerCutoff(cutoff, batches[..0]));
      FirstRises(low, batches);
      SyslogConsumer.OrderedBatchReturns(batches[0], cutoff);
    }
  }

  lemma FirstRises(low: int, batches: seq<seq<Record>>)
    requires Rising(low, batches) && batches != []
    ensures Ascending(batches[0])
    ensures forall r :: r in batches[0] ==> low < r.timestamp
  {
    assert Flatten(batches) == batches[0] + Flatten(batches[1..]);
    SplitAscending(batches[0], Flatten(batches[1..]));
    assert forall r :: r in batches[0] ==> r in Flatten(batches);
  }

  /** The consumer returns from everything a reader can send exactly when its cutoff is not
      above the reader's. */
  lemma SafeWiring(reader: EventLogState, consumerCutoff: int)
    ensures (forall ticks :: AllReturn(consumerCutoff, ChannelReader.Sent(false, reader, ticks)))
            <==> consumerCutoff <= reader.timestamp
  {
    hide SyslogConsumer.Returns, AllReturn, Rising;
    if consumerCutoff <= reader.timestamp {
      forall ticks ensures AllReturn(consumerCutoff, ChannelReader.Sent(false, reader, ticks)) {
        StreamRises(reader, ticks);
        BelowIsReady(reader.timestamp, consumerCutoff, ChannelReader.Sent(false, reader, ticks));
        ReturnsIffReady(reader.timestamp, consumerCutoff, ChannelReader.Sent(false, reader, ticks));
      }
    } else {
      var batch := [Record(consumerCutoff, 0, "")];
      var ticks := [ChannelReader.Tick(true, true, [ChannelReader.ReadResult(batch, ChannelReader.EOF, "")])];
      StreamRises(reader, ticks);
      SentByOneTick(reader, batch[0]);
      ReturnsIffReady(reader.timestamp, consumerCutoff, [batch]);
      assert !Ready(consumerCutoff, [batch]);
    }
  }

  lemma BelowIsReady(low: int, cutoff: int, batches: seq<seq<Record>>)
    requires cutoff <= low && Rising(low, batches)
    ensures Ready(cutoff, batches)
  {
    if batches != [] {
      assert batches[0] in batches;
      FirstRises(low, batches);
    }
  }

  lemma StreamRises(reader: EventLogState, ticks: seq<ChannelReader.Tick>)
    ensures Rising(reader.timestamp, ChannelReader.Sent(false, reader, ticks))
  {
    ChannelReader.SentIsOneRun(false, reader, ticks);
    BatchesRise(reader, ChannelReader.AllTaken(false, ticks));
  }

  /** What a tick that reads one new event sends. */
  lemma SentByOneTick(reader: EventLogState, r: Record)
    requires reader.timestamp < r.timestamp
    ensures ChannelReader.Sent(false, reader,
              [ChannelReader.Tick(true, true, [ChannelReader.ReadResult([r], ChannelReader.EOF, "")])]) == [[r]]
  {
    var result := ChannelReader.ReadResult([r], ChannelReader.EOF, "");
    var tick := ChannelReader.Tick(true, true, [result]);
    assert ChannelReader.Taken(false, tick) == [result];
    assert [r][1..] == [] && [result][1..] == [] && [tick][1..] == [];
    assert ChannelReader.Kept(reader.timestamp, [r]) == [r];
    assert ChannelReader.Batches(reader, [result]) == [[r]];
    assert ChannelReader.Sent(false, reader, [tick]) == ChannelReader.Batches(reader, [result]);
  }

  // ----- what the sender tasks attempt

  /** The guard lets through what is newer than cutoff, and that is something. */
  ghost predicate LetsThrough(cutoff: int, g: SyslogConsumer.Guarded) {
    SyslogConsumer.Newer(g.cutoff, g.records) == SyslogConsumer.Newer(cutoff, g.records) != []
  }

  /** Above a cutoff that is itself not below c, chunks let everything through. */
  lemma {:induction false} LaterChunks(events: seq<Record>, start: nat, cutoff: int, c: int)
    requires Ascending(events) && start <= |events| && c <= cutoff
    requires forall i :: start <= i < |events| ==> cutoff < events[i].timestamp
    ensures forall g :: g in SyslogConsumer.GuardedChunks(events, start, cutoff) ==> LetsThrough(c, g)
    decreases |events| - start
  {
    hide Ascending, SyslogConsumer.Newer;
    if start < |events| {
      FirstChunkNewer(events, start, cutoff);
      FirstChunkNewer(events, start, c);
      var (records, end) := ReadChunk(events, SyslogConsumer.CHUNK, start);
      assert events[end - 1] == Last(records);
      LaterChunks(events, end, Last(records).timestamp, c);
    }
  }

  lemma {:induction false} LastIsNewer(cutoff: int, records: seq<Record>)
    requires records != [] && cutoff < Last(records).timestamp
    ensures SyslogConsumer.Newer(cutoff, records) != []
  {
    var init := records[..|records| - 1];
    SyslogConsumer.NewerConcat(cutoff, init, [Last(records)]);
    assert records == init + [Last(records)];
  }

  /** One batch whose first chunk ends above the cutoff. */
  lemma ChunksLetThrough(events: seq<Record>, cutoff: int)
    requires events != [] && Ascending(events) && cutoff < FirstEnd([events])
    ensures forall g :: g in SyslogConsumer.GuardedChunks(events, 0, cutoff) ==> LetsThrough(cutoff, g)
  {
    hide SyslogConsumer.Newer;
    var (records, end) := ReadChunk(events, SyslogConsumer.CHUNK, 0);
    assert Last(records) == events[end - 1];
    LastIsNewer(cutoff, records);
    LaterChunks(events, end, Last(records).timestamp, cutoff);
  }

  lemma BatchRecords(events: seq<Record>, cutoff: int)
    ensures Flatten(SyslogConsumer.RecordsOf(SyslogConsumer.GuardedChunks(events, 0, cutoff))) == events
  {
    SyslogConsumer.GuardedChunksOf(events, 0, cutoff);
    ChunksPartition(events, SyslogConsumer.CHUNK, 0);
    assert events[0..] == events;
  }

  /** A ready consumer's tasks are offered the stream, each record once and in order, and turn
      away exactly what is not newer than the cutoff it started with. */
  lemma {:induction false} OfferedStream(low: int, cutoff: int, batches: seq<seq<Record>>)
    requires Rising(low, batches) && Ready(cutoff, batches)
    ensures Flatten(SyslogConsumer.RecordsOf(Offered(cutoff, batches))) == Flatten(batches)
    ensures forall g :: g in Offered(cutoff, batches) ==> LetsThrough(cutoff, g)
    decreases |batches|
  {
    hide Rising, LetsThrough, SyslogConsumer.GuardedChunks, Ready;
    if batches != [] {
      var init, last := batches[..|batches| - 1], Last(batches);
      LastBatchRises(low, batches);
      ReadyPrefix(cutoff, batches, |init|);
      OfferedStream(low, cutoff, init);
      LastBatchAhead(low, cutoff, batches);
      var c := ConsumerCutoff(cutoff, init);
      LastLetsThrough(cutoff, c, init, last);
      var before, chunks := Offered(cutoff, init), SyslogConsumer.GuardedChunks(last, 0, c);
      BatchRecords(last, c);
      RecordsConcat(before, chunks);
      FlattenConcat(SyslogConsumer.RecordsOf(before), SyslogConsumer.RecordsOf(chunks));
      FlattenConcat(init, [last]);
      FlattenOne(last);
      assert batches == init + [last];
    }
  }

  lemma LastLetsThrough(cutoff: int, c: int, init: seq<seq<Record>>, last: seq<Record>)
    requires last != [] && Ascending(last) && cutoff <= c
    requires c < FirstEnd([last]) && c == ConsumerCutoff(cutoff, init)
    requires init == [] || forall r :: r in last ==> c < r.timestamp
    ensures forall g :: g in SyslogConsumer.GuardedChunks(last, 0, c) ==> LetsThrough(cutoff, g)
  {
    if init == [] {
      ChunksLetThrough(last, cutoff);
    } else {
      LaterChunks(last, 0, c, cutoff);
    }
  }

  lemma {:induction false} SameContents(sent: seq<seq<Record>>, chunks: seq<seq<Record>>)
    requires |sent| == |chunks|
    requires forall k :: 0 <= k < |sent| ==> multiset(sent[k]) == multiset(chunks[k])
    ensures multiset(Flatten(sent)) == multiset(Flatten(chunks))
    decreases |sent|
  {
    if sent != [] {
      assert multiset(sent[0]) == multiset(chunks[0]);
      SameContents(sent[1..], chunks[1..]);
    }
  }

  /** What the guards let through, chunk by chunk. */
  function LetThrough(cutoff: int, chunks: seq<SyslogConsumer.Guarded>): (r: seq<seq<Record>>)
    ensures |r| == |chunks| && forall i :: 0 <= i < |chunks| ==> r[i] == SyslogConsumer.Newer(cutoff, chunks[i].records)
  {
    seq(|chunks|, i requires 0 <= i < |chunks| => SyslogConsumer.Newer(cutoff, chunks[i].records))
  }

  lemma {:induction false} LetThroughIsNewer(cutoff: int, chunks: seq<SyslogConsumer.Guarded>)
    ensures Flatten(LetThrough(cutoff, chunks))
            == SyslogConsumer.Newer(cutoff, Flatten(SyslogConsumer.RecordsOf(chunks)))
  {
    if chunks != [] {
      var rest := chunks[1..];
      LetThroughIsNewer(cutoff, rest);
      assert LetThrough(cutoff, chunks)[1..] == LetThrough(cutoff, rest);
      assert SyslogConsumer.RecordsOf(chunks)[1..] == SyslogConsumer.RecordsOf(rest);
      SyslogConsumer.NewerConcat(cutoff, chunks[0].records, Flatten(SyslogConsumer.RecordsOf(rest)));
    }
  }

  /** A chunk without a client leaves the attempts short. */
  lemma {:induction false} MissingChunk(sent: seq<seq<Record>>, through: seq<seq<Record>>, clients: seq<bool>)
    requires |sent| == |through| == |clients|
    requires forall k :: 0 <= k < |sent| ==>
      through[k] != [] && |sent[k]| == if clients[k] then |through[k]| else 0
    ensures |Flatten(sent)| <= |Flatten(through)|
    ensures (exists k :: 0 <= k < |clients| && !clients[k]) ==> |Flatten(sent)| < |Flatten(through)|
    decreases |sent|
  {
    if sent != [] {
      var rest := clients[1..];
      MissingChunk(sent[1..], through[1..], rest);
      assert |Flatten(sent)| == |sent[0]| + |Flatten(sent[1..])|;
      assert |Flatten(through)| == |through[0]| + |Flatten(through[1..])|;
      if clients[0] && exists k :: 0 <= k < |clients| && !clients[k] {
        var k :| 0 <= k < |clients| && !clients[k];
        assert !rest[k - 1];
      }
    }
  }

  ghost predicate AllMade(clients: seq<bool>) {
    forall k :: 0 <= k < |clients| ==> clients[k]
  }

  lemma ChunkAttempts(cutoff: int, sent: seq<Record>, g: SyslogConsumer.Guarded, clientOk: bool)
    requires SyslogConsumer.Attempts(sent, g, clientOk) && LetsThrough(cutoff, g)
    ensures var through := SyslogConsumer.Newer(cutoff, g.records);
            through != [] && |sent| == (if clientOk then |through| else 0)
            && (clientOk ==> multiset(sent) == multiset(through))
  {
    assert |sent| == |multiset(sent)|;
  }

  /** The records newer than the consumer's first cutoff are attempted, each exactly once, if
      and only if a client could be made for every chunk. */
  lemma AttemptedIffClients(
    cutoff: int, sent: seq<seq<Record>>, offered: seq<SyslogConsumer.Guarded>, clients: seq<bool>)
    requires SyslogConsumer.AllAttempts(sent, offered, clients)
    requires forall g :: g in offered ==> LetsThrough(cutoff, g)
    ensures multiset(Flatten(sent))
            == multiset(SyslogConsumer.Newer(cutoff, Flatten(SyslogConsumer.RecordsOf(offered))))
            <==> AllMade(clients)
  {
    hide SyslogConsumer.Newer, SyslogConsumer.Attempts, LetsThrough, Flatten;
    var through := LetThrough(cutoff, offered);
    LetThroughIsNewer(cutoff, offered);
    forall k | 0 <= k < |sent|
      ensures through[k] != [] && |sent[k]| == (if clients[k] then |through[k]| else 0)
      ensures clients[k] ==> multiset(sent[k]) == multiset(through[k])
    {
      assert offered[k] in offered;
      ChunkAttempts(cutoff, sent[k], offered[k], clients[k]);
    }
    if AllMade(clients) {
      SameContents(sent, through);
    } else {
      MissingChunk(sent, through, clients);
      assert |multiset(Flatten(sent))| < |multiset(Flatten(through))|;
    }
  }

  // ----- the consumer object over a history

  lemma OfferedSnoc(cutoff: int, batches: seq<seq<Record>>, i: nat)
    requires i < |batches|
    ensures var c := ConsumerCutoff(cutoff, batches[..i]);
            Offered(cutoff, batches[..i + 1])
            == Offered(cutoff, batches[..i]) + SyslogConsumer.GuardedChunks(batches[i], 0, c)
    ensures batches[i] != [] ==> ConsumerCutoff(cutoff, batches[..i + 1]) == Last(batches[i]).timestamp
  {
    assert batches[..i + 1][..i] == batches[..i];
  }

  lemma {:induction false} OfferedPrefix(cutoff: int, batches: seq<seq<Record>>, i: nat)
    requires i <= |batches|
    ensures |Offered(cutoff, batches[..i])| <= |Offered(cutoff, batches)|
    decreases |batches| - i
  {
    if i < |batches| {
      OfferedPrefix(cutoff, batches, i + 1);
      OfferedSnoc(cutoff, batches, i);
    } else {
      assert batches[..i] == batches;
    }
  }

  lemma BatchReturns(low: int, cutoff: int, batches: seq<seq<Record>>, i: nat)
    requires Rising(low, batches) && Ready(cutoff, batches) && i < |batches|
    ensures batches[i] != []
    ensures var c := ConsumerCutoff(cutoff, batches[..i]);
            SyslogConsumer.IterateN(batches[i], 0, c, |batches[i]|) == (|batches[i]|, Last(batches[i]).timestamp)
  {
    var c := ConsumerCutoff(cutoff, batches[..i]);
    assert batches[i] in batches;
    ReadyReturns(low, cutoff, batches);
    assert SyslogConsumer.Returns(batches[i], 0, c);
    SyslogConsumer.ReturnsIffChunkEndsRise(batches[i], c);
    SyslogConsumer.RisingEndsReturn(batches[i], 0, c, |batches[i]|);
  }

  lemma AttemptsConcat(
    a: seq<seq<Record>>, b: seq<seq<Record>>, p: seq<SyslogConsumer.Guarded>, q: seq<SyslogConsumer.Guarded>,
    clients: seq<bool>)
    requires |a| == |p| && |p| + |q| <= |clients|
    requires SyslogConsumer.AllAttempts(a, p, clients[..|p|])
    requires SyslogConsumer.AllAttempts(b, q, clients[|p|..|p| + |q|])
    ensures SyslogConsumer.AllAttempts(a + b, p + q, clients[..|p| + |q|])
  {
    hide SyslogConsumer.Attempts;
    var all := clients[..|p| + |q|];
    forall k | 0 <= k < |a + b| ensures SyslogConsumer.Attempts((a + b)[k], (p + q)[k], all[k]) {
      if k >= |p| {
        var j := k - |p|;
        assert SyslogConsumer.Attempts(b[j], q[j], clients[|p|..|p| + |q|][j]);
      }
    }
  }

  /** HandleEvents on one batch of the stream, until it returns. */
  method HandleBatch(consumer: SyslogConsumer.Syslog, ghost low: int, ghost cutoff: int,
                     batches: seq<seq<Record>>, i: nat, clients: seq<bool>)
    requires Rising(low, batches) && Ready(cutoff, batches) && i < |batches|
    requires consumer.state.timestamp == ConsumerCutoff(cutoff, batches[..i])
    requires |clients| == |SyslogConsumer.GuardedChunks(batches[i], 0, consumer.state.timestamp)|
    modifies consumer
    ensures consumer.state.timestamp == ConsumerCutoff(cutoff, batches[..i + 1])
    ensures old(consumer.attempted) <= consumer.attempted
    ensures SyslogConsumer.AllAttempts(
              consumer.attempted[|old(consumer.attempted)|..],
              SyslogConsumer.GuardedChunks(batches[i], 0, old(consumer.state.timestamp)), clients)
  {
    hide SyslogConsumer.AllAttempts, Rising, Ready;
    BatchReturns(low, cutoff, batches, i);
    OfferedSnoc(cutoff, batches, i);
    ghost var chunks := SyslogConsumer.GuardedChunks(batches[i], 0, consumer.state.timestamp);
    var end := consumer.HandleEvents(batches[i], clients, |batches[i]|);
    assert end == |batches[i]|;
    ghost var k := |consumer.attempted| - |old(consumer.attempted)|;
    assert k == |chunks| && chunks[..k] == chunks && clients[..k] == clients;
  }

  /** The consumer's side of the manager's loop: batch after batch of a rising stream. */
  method Serve(consumer: SyslogConsumer.Syslog, ghost low: int, batches: seq<seq<Record>>, clients: seq<bool>)
    requires Rising(low, batches) && Ready(consumer.state.timestamp, batches)
    requires |clients| == |Offered(consumer.state.timestamp, batches)|
    modifies consumer
    ensures old(consumer.attempted) <= consumer.attempted
    ensures SyslogConsumer.AllAttempts(
              consumer.attempted[|old(consumer.attempted)|..],
              Offered(old(consumer.state.timestamp), batches), clients)
    ensures consumer.state.timestamp == ConsumerCutoff(old(consumer.state.timestamp), batches)
  {
    hide SyslogConsumer.Attempts, SyslogConsumer.AllAttempts, Rising, Ready, Offered, ConsumerCutoff;
    hide SyslogConsumer.GuardedChunks;
    ghost var cutoff := consumer.state.timestamp;
    ghost var mine: seq<seq<Record>> := [];
    ServeStart(cutoff, batches, clients);
    var m := 0;
    for i := 0 to |batches|
      invariant consumer.state.timestamp == ConsumerCutoff(cutoff, batches[..i])
      invariant m == |mine| == |Offered(cutoff, batches[..i])| <= |clients|
      invariant consumer.attempted == old(consumer.attempted) + mine
      invariant SyslogConsumer.AllAttempts(mine, Offered(cutoff, batches[..i]), clients[..m])
    {
      OfferedSnoc(cutoff, batches, i);
      OfferedPrefix(cutoff, batches, i + 1);
      ghost var chunks := SyslogConsumer.GuardedChunks(batches[i], 0, consumer.state.timestamp);
      var size := |SyslogConsumer.GuardedChunks(batches[i], 0, consumer.state.timestamp)|;
      ghost var was := consumer.attempted;
      HandleBatch(consumer, low, cutoff, batches, i, clients[m..m + size]);
      ghost var more := consumer.attempted[|was|..];
      AttemptsConcat(mine, more, Offered(cutoff, batches[..i]), chunks, clients);
      AttemptsSize(more, chunks, clients[m..m + size]);
      mine, m := mine + more, m + size;
    }
    assert batches[..|batches|] == batches && clients[..m] == clients;
    assert consumer.attempted[|old(consumer.attempted)|..] == mine;
  }

  lemma ServeStart(cutoff: int, batches: seq<seq<Record>>, clients: seq<bool>)
    ensures ConsumerCutoff(cutoff, batches[..0]) == cutoff
    ensures Offered(cutoff, batches[..0]) == [] && SyslogConsumer.AllAttempts([], [], clients[..0])
  {
  }

  lemma AttemptsSize(sent: seq<seq<Record>>, chunks: seq<SyslogConsumer.Guarded>, clients: seq<bool>)
    requires SyslogConsumer.AllAttempts(sent, chunks, clients)
    ensures |sent| == |chunks|
  {
  }

  // ----- the whole way

  lemma {:induction false} PrefixOfRising(cutoff: int, batches: seq<seq<Record>>, h: seq<seq<Record>>)
    requires Rising(cutoff, batches) && h <= batches
    ensures Rising(cutoff, h)
    ensures forall r :: r in Flatten(h) ==> r in Flatten(batches)
    decreases |batches|
  {
    if h != batches {
      var init := batches[..|batches| - 1];
      LastBatchRises(cutoff, batches);
      PrefixOfRising(cutoff, init, h);
      FlattenConcat(init, [Last(batches)]);
      assert batches == init + [Last(batches)];
    }
  }

  lemma KeptBelowCutoff(cutoff: int, events: seq<Record>)
    ensures forall r :: r in ChannelReader.Kept(cutoff, events) ==>
            r.timestamp <= ChannelReader.CutoffAfter(cutoff, events)
  {
    ChannelReader.CutoffIsLastKept(cutoff, events);
    var kept := ChannelReader.Kept(cutoff, events);
    forall r | r in kept ensures r.timestamp <= ChannelReader.CutoffAfter(cutoff, events) {
      var k :| 0 <= k < |kept| && kept[k] == r;
      assert k == |kept| - 1 || kept[k].timestamp < kept[|kept| - 1].timestamp;
    }
  }

  /** What consumer i has begun to handle after a run of the manager's worker. */
  ghost function History(n: nat, start: FanOut.State, ls: seq<FanOut.Label>, i: nat): (h: seq<seq<Record>>)
    requires FanOut.Init(n, start) && FanOut.Valid(n, start, ls) && i < n
    ensures h <= FanOut.Received(ls) && |h| == FanOut.Count(ls, FanOut.Begin(i))
  {
    FanOut.Barrier(n, start, ls, i, i);
    FanOut.Exec(n, start, ls).started[i]
  }

  /** Over any ticks of the reader and any interleaving of the manager: a consumer returns from
      every batch it has handled or is handling exactly when its first cutoff is below the end
      of the first chunk it gets, as it always is when it is not above the reader's. Then each
      emitted record newer than that cutoff is attempted exactly once if and only if a client
      could be made for every chunk, and the consumer stays at or below the reader's cutoff.
      sent is what the chunks of the history attempt. */
  lemma EndToEnd(reader: EventLogState, ticks: seq<ChannelReader.Tick>, consumerCutoff: int,
                 n: nat, start: FanOut.State, ls: seq<FanOut.Label>, i: nat,
                 sent: seq<seq<Record>>, clients: seq<bool>)
    requires FanOut.Init(n, start) && FanOut.Valid(n, start, ls) && i < n
    requires FanOut.Received(ls) <= ChannelReader.Sent(false, reader, ticks)
    requires SyslogConsumer.AllAttempts(sent, Offered(consumerCutoff, History(n, start, ls, i)), clients)
    ensures var h := History(n, start, ls, i);
            Rising(reader.timestamp, h) && Distinct(Flatten(h))
            && (AllReturn(consumerCutoff, h) <==> Ready(consumerCutoff, h))
            && (consumerCutoff <= reader.timestamp ==>
                  Ready(consumerCutoff, h) && SyslogConsumer.Newer(consumerCutoff, Flatten(h)) == Flatten(h))
            && (Ready(consumerCutoff, h) ==>
                  (multiset(Flatten(sent)) == multiset(SyslogConsumer.Newer(consumerCutoff, Flatten(h)))
                   <==> AllMade(clients)))
            && (h != [] ==>
                  ConsumerCutoff(consumerCutoff, h)
                  <= ChannelReader.FinalState(reader, ChannelReader.AllTaken(false, ticks)).timestamp)
  {
    hide SyslogConsumer.AllAttempts, AllReturn, Ready;
    HistoryRises(reader, ticks, n, start, ls, i);
    var h := History(n, start, ls, i);
    ReturnsIffReady(reader.timestamp, consumerCutoff, h);
    HistoryBelowReader(reader, ticks, consumerCutoff, h);
    if consumerCutoff <= reader.timestamp {
      BelowIsReady(reader.timestamp, consumerCutoff, h);
      AllAreNewer(consumerCutoff, Flatten(h));
    }
    if Ready(consumerCutoff, h) {
      OfferedStream(reader.timestamp, consumerCutoff, h);
      AttemptedIffClients(consumerCutoff, sent, Offered(consumerCutoff, h), clients);
    }
  }

  /** A consumer's history is a rising prefix of what the reader sends. */
  lemma HistoryRises(reader: EventLogState, ticks: seq<ChannelReader.Tick>,
                     n: nat, start: FanOut.State, ls: seq<FanOut.Label>, i: nat)
    requires FanOut.Init(n, start) && FanOut.Valid(n, start, ls) && i < n
    requires FanOut.Received(ls) <= ChannelReader.Sent(false, reader, ticks)
    ensures History(n, start, ls, i) <= ChannelReader.Sent(false, reader, ticks)
    ensures Rising(reader.timestamp, History(n, start, ls, i)) && Distinct(Flatten(History(n, start, ls, i)))
  {
    FanOut.Barrier(n, start, ls, i, i);
    StreamRises(reader, ticks);
    PrefixOfRising(reader.timestamp, ChannelReader.Sent(false, reader, ticks), History(n, start, ls, i));
  }

  lemma HistoryBelowReader(reader: EventLogState, ticks: seq<ChannelReader.Tick>, cutoff: int, h: seq<seq<Record>>)
    requires h <= ChannelReader.Sent(false, reader, ticks)
    ensures h != [] ==>
            ConsumerCutoff(cutoff, h)
            <= ChannelReader.FinalState(reader, ChannelReader.AllTaken(false, ticks)).timestamp
  {
    var results := ChannelReader.AllTaken(false, ticks);
    StreamRises(reader, ticks);
    PrefixOfRising(reader.timestamp, ChannelReader.Sent(false, reader, ticks), h);
    CutoffFromStream(cutoff, h);
    ChannelReader.StreamOverRuns(false, reader, ticks);
    ChannelReader.StreamIsBatchingFree(reader, results);
    KeptBelowCutoff(reader.timestamp, ChannelReader.RawEvents(results));
  }

  /** The same for the consumer object: it serves its whole history, by the reader's doing. */
  method Deliver(consumer: SyslogConsumer.Syslog, reader: EventLogState, ticks: seq<ChannelReader.Tick>,
                 n: nat, start: FanOut.State, ls: seq<FanOut.Label>, i: nat,
                 history: seq<seq<Record>>, clients: seq<bool>)
    requires FanOut.Init(n, start) && FanOut.Valid(n, start, ls) && i < n
    requires FanOut.Received(ls) <= ChannelReader.Sent(false, reader, ticks)
    requires history == History(n, start, ls, i) && Ready(consumer.state.timestamp, history)
    requires |clients| == |Offered(consumer.state.timestamp, history)|
    modifies consumer
    ensures old(consumer.attempted) <= consumer.attempted
    ensures var sent := consumer.attempted[|old(consumer.attempted)|..];
            (multiset(Flatten(sent))
             == multiset(SyslogConsumer.Newer(old(consumer.state.timestamp), Flatten(history)))
             <==> AllMade(clients))
            && consumer.state.timestamp == ConsumerCutoff(old(consumer.state.timestamp), history)
            && (history != [] ==>
                  consumer.state.timestamp
                  <= ChannelReader.FinalState(reader, ChannelReader.AllTaken(false, ticks)).timestamp)
  {
    hide Offered, ConsumerCutoff, SyslogConsumer.AllAttempts, AllMade;
    ghost var cutoff := consumer.state.timestamp;
    HistoryRises(reader, ticks, n, start, ls, i);
    Serve(consumer, reader.timestamp, history, clients);
    EndToEnd(reader, ticks, cutoff, n, start, ls, i, consumer.attempted[|old(consumer.attempted)|..], clients);
  }
}
