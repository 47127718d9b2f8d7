/** The packet reader: unpacked packets are buffered and sent in batches, when the buffer is
    full or at the next tick. */
module DnsPacketReader {
  import opened Sequences
  import opened Records

  /** What the loop's select yields: a packet that does or does not unpack, or the ticker. */
  datatype Input = Packet(record: Record) | BadPacket | Tick

  /** What one input contributes. */
  function Added(input: Input): seq<Record> {
    if input.Packet? then [input.record] else []
  }

  /** The records of the packets that unpack, in order. */
  function Unpacked(inputs: seq<Input>): seq<Record> {
    if inputs == [] then [] else Unpacked(inputs[..|inputs| - 1]) + Added(Last(inputs))
  }

  /** The greatest size of a batch: a limit below one means one. */
  function Limit(maxRead: int): nat {
    if maxRead < 1 then 1 else maxRead
  }

  /** Read from the front: a packet that unpacks is its record, and nothing else is. */
  lemma {:induction false} UnpackedCons(input: Input, rest: seq<Input>)
    ensures Unpacked([input] + rest)
            == (match input case Packet(r) => [r] case BadPacket => [] case Tick => []) + Unpacked(rest)
    decreases |rest|
  {
    var all := [input] + rest;
    if rest == [] {
      assert all[..0] == [] && Last(all) == input && Unpacked([]) == [];
    } else {
      var init := rest[..|rest| - 1];
      UnpackedCons(input, init);
      assert all[..|all| - 1] == [input] + init && Last(all) == Last(rest);
    }
  }

  /** Everything sent, followed by what is still buffered. */
  function Stream(records: seq<seq<Record>>, tmpRecords: seq<Record>): seq<Record> {
    Flatten(records) + tmpRecords
  }

  lemma StreamGrows(records: seq<seq<Record>>, tmpRecords: seq<Record>, more: seq<Record>,
                    recordsAfter: seq<seq<Record>>, tmpAfter: seq<Record>)
    requires (recordsAfter == records && tmpAfter == tmpRecords + more)
             || (recordsAfter == records + [tmpRecords + more] && tmpAfter == [])
    ensures Stream(recordsAfter, tmpAfter) == Stream(records, tmpRecords) + more
  {
    FlattenConcat(records, [tmpRecords + more]);
    FlattenOne(tmpRecords + more);
  }

  lemma UnpackedSnoc(inputs: seq<Input>, i: nat, before: seq<Record>)
    requires i < |inputs|
    ensures before + Unpacked(inputs[..i]) + Added(inputs[i]) == before + Unpacked(inputs[..i + 1])
  {
    assert inputs[..i + 1][..i] == inputs[..i];
  }

  class Reader {
    const deviceName: string
    const maxRead: int
    var state: EventLogState
    var tmpRecords: seq<Record>
    var persisted: seq<EventLogState>
    var records: seq<seq<Record>>     // the channel

    ghost predicate Valid()
      reads this
    {
      && |tmpRecords| < Limit(maxRead)
      && (forall b :: b in records ==> 1 <= |b| <= Limit(maxRead))
      && |persisted| == |records|
      && (forall i :: 0 <= i < |records| ==>
            records[i] != []
            && persisted[i] == EventLogState("DNSLog" + deviceName, 0, Last(records[i]).timestamp, NoDigest, ""))
      && (records != [] ==> state == persisted[|records| - 1])
    }

    constructor (deviceName: string, maxRead: int, state: EventLogState)
      ensures Valid() && this.deviceName == deviceName && this.maxRead == maxRead && this.state == state
      ensures tmpRecords == [] && persisted == [] && records == []
    {
      this.deviceName, this.maxRead, this.state := deviceName, maxRead, state;
      tmpRecords, persisted, records := [], [], [];
    }

    method Save()
      requires tmpRecords != []
      modifies this
      ensures state.name == "DNSLog" + deviceName && state.timestamp == Last(old(tmpRecords)).timestamp
      ensures state.recordNumber == 0 && state.md5 == NoDigest && state.bookmark == "" && tmpRecords == []
      ensures persisted == old(persisted) + [state]
      ensures records == old(records) + [old(tmpRecords)]
    {
      state := EventLogState("DNSLog" + deviceName, 0, Last(tmpRecords).timestamp, NoDigest, "");
      persisted := persisted + [state];
      records := records + [tmpRecords];
      tmpRecords := [];
    }

    /** One turn of the loop: what the input adds goes into the buffer, and out with it when the
        buffer is full or a tick finds it non-empty. */
    method Step(input: Input)
      requires Valid()
      modifies this
      ensures Valid()
      ensures var batch := old(tmpRecords) + Added(input);
        if |batch| == Limit(maxRead) || (input.Tick? && batch != [])
        then records == old(records) + [batch] && tmpRecords == []
             && |persisted| == |old(persisted)| + 1 && old(persisted) <= persisted
             && Last(persisted).timestamp == Last(batch).timestamp
        else records == old(records) && tmpRecords == batch && persisted == old(persisted)
    {
      match input {
        case BadPacket =>
        case Packet(record) =>
          tmpRecords := tmpRecords + [record];
          if maxRead <= |tmpRecords| {
            Save();
          }
        case Tick =>
          assert tmpRecords + Added(input) == tmpRecords;
          if |tmpRecords| > 0 {
            Save();
          }
      }
    }

    /** A turn as the loop sees it: the stream grows by what the input adds. */
    method Advance(input: Input)
      requires Valid()
      modifies this
      ensures Valid()
      ensures Stream(records, tmpRecords) == Stream(old(records), old(tmpRecords)) + Added(input)
      ensures old(records) <= records && old(persisted) <= persisted
      ensures input.Tick? ==> tmpRecords == []
    {
      hide Stream, Limit;
      ghost var sent, held := records, tmpRecords;
      Step(input);
      assert input.Tick? ==> held + Added(input) == held;
      StreamGrows(sent, held, Added(input), records, tmpRecords);
    }

    /** The loop over any sequence of packets and ticks: nothing unpacked is lost, repeated or
        reordered between the channel and the buffer. */
    method Run(inputs: seq<Input>)
      requires Valid()
      modifies this
      ensures Valid()
      ensures Stream(records, tmpRecords) == Stream(old(records), old(tmpRecords)) + Unpacked(inputs)
      ensures old(records) <= records && old(persisted) <= persisted
      ensures inputs != [] && Last(inputs).Tick? ==> tmpRecords == []
    {
      for i := 0 to |inputs|
        invariant Valid()
        invariant Stream(records, tmpRecords)
               == Stream(old(records), old(tmpRecords)) + Unpacked(inputs[..i])
        invariant old(records) <= records && old(persisted) <= persisted
        invariant i > 0 && inputs[i - 1].Tick? ==> tmpRecords == []
      {
        hide Stream, Unpacked, Limit, Added;
        Advance(inputs[i]);
        UnpackedSnoc(inputs, i, Stream(old(records), old(tmpRecords)));
      }
      assert inputs[..|inputs|] == inputs;
    }
  }
}
