/** The consumer manager: one worker per topic hands every batch to all of the topic's
    consumers at once and waits for all of them before it takes the next. */
module FanOut {
  import opened Records

  type Batch = seq<Record>

  // ----- registration

  /** consumers and channels are known by number. */
  datatype Binder = Binder(consumes: seq<nat>, events: nat)

  class Manager {
    var consumers: map<string, Binder>
    var stopChan: map<string, nat>
    var channels: nat               // channels made so far, which number them
    var pointed: set<nat>           // consumers that were given the manager's checkpoint

    /** Every topic has consumers and a stop channel that no other topic has. */
    ghost predicate Valid()
      reads this
    {
      && stopChan.Keys == consumers.Keys
      && (forall t :: t in stopChan ==> stopChan[t] < channels)
      && (forall t, u :: t in stopChan && u in stopChan && t != u ==> stopChan[t] != stopChan[u])
      && (forall t :: t in consumers ==> Pointed(consumers[t]))
    }

    /** All of a topic's consumers have the checkpoint. */
    ghost predicate Pointed(binder: Binder)
      reads this
    {
      binder.consumes != [] && forall c :: c in binder.consumes ==> c in pointed
    }

    constructor ()
      ensures Valid() && consumers == map[] && pointed == {}
    {
      consumers, stopChan, channels, pointed := map[], map[], 0, {};
    }

    method Bind(topic: string, consumer: nat, events: nat)
      requires consumer in pointed && forall t :: t in consumers ==> Pointed(consumers[t])
      modifies this`consumers
      ensures forall t :: t in consumers ==> Pointed(consumers[t])
      ensures consumers == old(consumers)[topic :=
        if topic in old(consumers) then
          old(consumers)[topic].(consumes := old(consumers)[topic].consumes + [consumer])
        else Binder([consumer], events)]
    {
      if topic in consumers {
        var binder := consumers[topic];
        binder := binder.(consumes := binder.consumes + [consumer]);
        assert Pointed(binder);
        consumers := consumers[topic := binder];
      } else {
        assert Pointed(Binder([consumer], events));
        consumers := consumers[topic := Binder([consumer], events)];
      }
    }

    /** The first consumer of a topic fixes its channel; later ones are appended and the
        channel they come with is not looked at. The topic's stop channel is made anew. */
    method AddConsumer(topic: string, consumer: nat, events: nat)
      requires Valid()
      modifies this
      ensures Valid() && pointed == old(pointed) + {consumer}
      ensures consumers.Keys == old(consumers).Keys + {topic}
      ensures forall t :: t in old(consumers) && t != topic ==>
        consumers[t] == old(consumers)[t] && stopChan[t] == old(stopChan)[t]
      ensures topic in old(consumers) ==>
        consumers[topic].events == old(consumers)[topic].events
        && consumers[topic].consumes == old(consumers)[topic].consumes + [consumer]
        && stopChan[topic] != old(stopChan)[topic]
      ensures topic !in old(consumers) ==> consumers[topic] == Binder([consumer], events)
    {
      pointed := pointed + {consumer};
      Bind(topic, consumer, events);
      stopChan, channels := stopChan[topic := channels], channels + 1;
    }
  }

  // ----- the worker of one topic

  /** n consumers. busy: a batch is out, and wg counts the consumers still at it. started and
      completed are what each consumer has begun and finished handling, in order; taken is
      every batch the worker has received. */
  datatype State = State(
    busy: bool, wg: nat, taken: seq<Batch>,
    started: seq<seq<Batch>>, completed: seq<seq<Batch>>)

  datatype Label = Take(b: Batch) | Begin(i: nat) | Finish(i: nat) | WaitReturns

  predicate Enabled(n: nat, s: State, l: Label) {
    && |s.started| == |s.completed| == n
    && match l
       case Take(_) => !s.busy
       case Begin(i) => s.busy && i < n && |s.started[i]| < |s.taken|
       case Finish(i) => i < n && |s.completed[i]| < |s.started[i]| && s.wg > 0
       case WaitReturns => s.busy && s.wg == 0
  }

  function Next(n: nat, s: State, l: Label): State
    requires Enabled(n, s, l)
  {
    match l
    case Take(b) => s.(busy := true, wg := n, taken := s.taken + [b])
    case Begin(i) =>
      // the goroutine spawned for consumer i handles the batch just taken
      s.(started := s.started[i := s.started[i] + [s.taken[|s.taken| - 1]]])
    case Finish(i) =>
      s.(completed := s.completed[i := s.completed[i] + [s.started[i][|s.started[i]| - 1]]], wg := s.wg - 1)
    case WaitReturns => s.(busy := false)
  }

  ghost predicate Init(n: nat, s: State) {
    s == State(false, 0, [], seq(n, i => []), seq(n, i => []))
  }

  ghost predicate Valid(n: nat, s: State, ls: seq<Label>)
    decreases |ls|
  {
    ls == [] || (Enabled(n, s, ls[0]) && Valid(n, Next(n, s, ls[0]), ls[1..]))
  }

  ghost function Exec(n: nat, s: State, ls: seq<Label>): State
    requires Valid(n, s, ls)
    decreases |ls|
  {
    if ls == [] then s else Exec(n, Next(n, s, ls[0]), ls[1..])
  }

  /** Consumers still at the current batch. */
  ghost function Unfinished(n: nat, s: State): set<nat>
    requires |s.completed| == n
  {
    set i | 0 <= i < n && |s.completed[i]| < |s.taken|
  }

  ghost predicate Inv(n: nat, s: State) {
    && |s.started| == |s.completed| == n
    && (forall i :: 0 <= i < n ==> s.completed[i] <= s.started[i] <= s.taken)
    && (forall i :: 0 <= i < n ==> |s.completed[i]| >= |s.taken| - 1)
    && (s.busy ==> s.taken != [] && s.wg == |Unfinished(n, s)|)
    && (!s.busy ==> s.wg == 0 && forall i :: 0 <= i < n ==> |s.completed[i]| == |s.taken|)
  }

  lemma NoneUnfinished(n: nat, s: State)
    requires Inv(n, s) && s.wg == 0
    ensures forall i :: 0 <= i < n ==> |s.completed[i]| == |s.taken|
  {
    if s.busy {
      forall i | 0 <= i < n ensures |s.completed[i]| == |s.taken| {
        assert i !in Unfinished(n, s);
      }
    }
  }

  ghost function Everyone(n: nat): (r: set<nat>)
    ensures |r| == n && forall i :: i in r <==> 0 <= i < n
  {
    if n == 0 then {} else Everyone(n - 1) + {n - 1}
  }

  lemma StepInv(n: nat, s: State, l: Label)
    requires Inv(n, s) && Enabled(n, s, l)
    ensures Inv(n, Next(n, s, l))
  {
    var t := Next(n, s, l);
    match l {
      case Take(b) =>
        assert Unfinished(n, t) == Everyone(n);
      case Begin(i) =>
        assert s.started[i] + [s.taken[|s.taken| - 1]] == s.taken;
        assert Unfinished(n, t) == Unfinished(n, s);
      case Finish(i) =>
        assert s.busy && i in Unfinished(n, s);
        assert s.started[i] == s.taken;
        assert Unfinished(n, t) == Unfinished(n, s) - {i};
      case WaitReturns =>
        NoneUnfinished(n, s);
    }
  }

  lemma {:induction false} RunInv(n: nat, s: State, ls: seq<Label>)
    requires Inv(n, s) && Valid(n, s, ls)
    ensures Inv(n, Exec(n, s, ls))
    decreases |ls|
  {
    if ls != [] {
      StepInv(n, s, ls[0]);
      RunInv(n, Next(n, s, ls[0]), ls[1..]);
    }
  }

  ghost predicate Reachable(n: nat, s: State) {
    exists start, ls :: Init(n, start) && Valid(n, start, ls) && Exec(n, start, ls) == s
  }

  lemma ReachableInv(n: nat, s: State)
    requires Reachable(n, s)
    ensures Inv(n, s)
  {
    var start, ls :| Init(n, start) && Valid(n, start, ls) && Exec(n, start, ls) == s;
    RunInv(n, start, ls);
  }

  /** The batches that came over the topic's channel in a run. */
  function Received(ls: seq<Label>): seq<Batch> {
    if ls == [] then []
    else (if ls[0].Take? then [ls[0].b] else []) + Received(ls[1..])
  }

  lemma {:induction false} TakenIsReceived(n: nat, s: State, ls: seq<Label>)
    requires Valid(n, s, ls)
    ensures Exec(n, s, ls).taken == s.taken + Received(ls)
    decreases |ls|
  {
    if ls != [] {
      TakenIsReceived(n, Next(n, s, ls[0]), ls[1..]);
    }
  }

  /** The steps of one consumer, as numbers of batches. */
  function Count(ls: seq<Label>, l: Label): nat {
    if ls == [] then 0 else (if ls[0] == l then 1 else 0) + Count(ls[1..], l)
  }

  lemma {:induction false} StepsAreCounted(n: nat, s: State, ls: seq<Label>, i: nat)
    requires Valid(n, s, ls) && i < n && |s.started| == |s.completed| == n
    ensures var t := Exec(n, s, ls);
            |t.started| == |t.completed| == n
            && |t.started[i]| == |s.started[i]| + Count(ls, Begin(i))
            && |t.completed[i]| == |s.completed[i]| + Count(ls, Finish(i))
    decreases |ls|
  {
    if ls != [] {
      StepsAreCounted(n, Next(n, s, ls[0]), ls[1..], i);
    }
  }

  /** In every interleaving each consumer handles a prefix of the batches received on the topic,
      in order, two consumers are never more than one batch apart, and a consumer that has started
      a batch finds every earlier one completed by all. How many it has begun and finished is what
      its own steps say. */
  lemma Barrier(n: nat, start: State, ls: seq<Label>, i: nat, j: nat)
    requires Init(n, start) && Valid(n, start, ls) && i < n && j < n
    ensures var s := Exec(n, start, ls);
            |s.completed| == |s.started| == n
            && s.completed[i] <= Received(ls) && s.started[i] <= Received(ls)
            && |s.completed[i]| <= |s.completed[j]| + 1
            && |s.started[i]| <= |s.completed[j]| + 1
            && |s.started[i]| == Count(ls, Begin(i)) && |s.completed[i]| == Count(ls, Finish(i))
  {
    RunInv(n, start, ls);
    TakenIsReceived(n, start, ls);
    StepsAreCounted(n, start, ls, i);
  }

  /** The wait group's counter is never negative or stuck: it is the number of consumers yet to
      finish, so the worker goes on exactly when all have. */
  lemma WaitIsExact(n: nat, s: State)
    requires Reachable(n, s) && s.busy
    ensures |s.completed| == n
    ensures Enabled(n, s, WaitReturns) <==> forall i :: 0 <= i < n ==> s.completed[i] == s.taken
    ensures !Enabled(n, s, WaitReturns) ==>
            exists i :: Enabled(n, s, Begin(i)) || Enabled(n, s, Finish(i))
  {
    ReachableInv(n, s);
    if Enabled(n, s, WaitReturns) {
      NoneUnfinished(n, s);
    } else {
      var i :| i in Unfinished(n, s);
      assert s.completed[i] != s.taken;
      assert Enabled(n, s, Begin(i)) || Enabled(n, s, Finish(i));
    }
  }
}
