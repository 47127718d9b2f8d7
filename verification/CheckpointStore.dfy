/** The checkpoint: the latest state of every log in memory, and a name-sorted list of them in
    a file that is replaced as a whole. */
module CheckpointStore {
  import opened Sequences
  import opened Records

  type States = map<string, EventLogState>

  /** Every key is its state's own name. */
  ghost predicate KeyedByName(m: States) {
    forall k :: k in m ==> m[k].name == k
  }

  function Apply(m: States, s: EventLogState): States {
    m[s.name := s]
  }

  /** Applying updates in order: the last one of a name wins. */
  function Fold(m: States, updates: seq<EventLogState>): States {
    if updates == [] then m
    else Apply(Fold(m, updates[..|updates| - 1]), Last(updates))
  }

  /** Building the map from a persisted list. */
  function Load(list: seq<EventLogState>): States {
    Fold(map[], list)
  }

  // ----- sort.Strings

  /** Lexicographic order, as of Go strings. */
  predicate Less(a: string, b: string) {
    b != [] && (a == [] || a[0] < b[0] || (a[0] == b[0] && Less(a[1..], b[1..])))
  }

  /** One string is less than another exactly when it is a proper prefix of it, or has the lesser
      character where the two first differ. */
  lemma {:induction false} LessIsGoOrder(a: string, b: string)
    ensures Less(a, b) <==>
            exists k: nat :: k <= |a| && k < |b| && a[..k] == b[..k] && (k == |a| || a[k] < b[k])
  {
    if Less(a, b) {
      var k := FirstDifference(a, b);
    }
    if k: nat :| k <= |a| && k < |b| && a[..k] == b[..k] && (k == |a| || a[k] < b[k]) {
      LessFrom(a, b, k);
    }
  }

  lemma {:induction false} FirstDifference(a: string, b: string) returns (k: nat)
    requires Less(a, b)
    ensures k <= |a| && k < |b| && a[..k] == b[..k] && (k == |a| || a[k] < b[k])
  {
    k := 0;
    if a != [] && a[0] == b[0] {
      k := FirstDifference(a[1..], b[1..]);
      assert a[..k + 1] == [a[0]] + a[1..][..k] && b[..k + 1] == [b[0]] + b[1..][..k];
      k := k + 1;
    }
  }

  lemma {:induction false} LessFrom(a: string, b: string, k: nat)
    requires k <= |a| && k < |b| && a[..k] == b[..k] && (k == |a| || a[k] < b[k])
    ensures Less(a, b)
    decreases k
  {
    if k > 0 {
      assert a[0] == a[..k][0] == b[..k][0] == b[0];
      assert a[1..][..k - 1] == a[..k][1..] && b[1..][..k - 1] == b[..k][1..];
      LessFrom(a[1..], b[1..], k - 1);
    }
  }

  lemma {:induction false} LessIsTotal(a: string, b: string)
    ensures a == b || Less(a, b) || Less(b, a)
    ensures !(Less(a, b) && Less(b, a)) && (Less(a, b) ==> a != b)
  {
    if a != [] && b != [] && a[0] == b[0] {
      LessIsTotal(a[1..], b[1..]);
      assert a == [a[0]] + a[1..] && b == [b[0]] + b[1..];
    }
  }

  lemma {:induction false} LessIsTransitive(a: string, b: string, c: string)
    requires Less(a, b) && Less(b, c)
    ensures Less(a, c)
  {
    if a != [] && a[0] == b[0] == c[0] {
      LessIsTransitive(a[1..], b[1..], c[1..]);
    }
  }

  ghost predicate Sorted(names: seq<string>) {
    forall i, j :: 0 <= i < j < |names| ==> Less(names[i], names[j])
  }

  function Insert(name: string, names: seq<string>): seq<string> {
    if names == [] then [name]
    else if Less(names[0], name) then [names[0]] + Insert(name, names[1..])
    else [name] + names
  }

  function SortStrings(names: seq<string>): seq<string> {
    if names == [] then [] else Insert(names[0], SortStrings(names[1..]))
  }

  lemma {:induction false} InsertKeepsSorted(name: string, names: seq<string>)
    requires Sorted(names) && name !in names
    ensures Sorted(Insert(name, names))
    ensures forall x :: x in Insert(name, names) <==> x == name || x in names
  {
    if names != [] {
      LessIsTotal(names[0], name);
      var tail := names[1..];
      assert forall i :: 0 <= i < |tail| ==> tail[i] == names[i + 1];
      if Less(names[0], name) {
        InsertKeepsSorted(name, tail);
        var r := Insert(name, tail);
        forall j | 0 <= j < |r| ensures Less(names[0], r[j]) {
          assert r[j] in r;
        }
      } else {
        forall j | 0 <= j < |names| ensures Less(name, names[j]) {
          if j > 0 {
            LessIsTransitive(name, names[0], names[j]);
          }
        }
      }
    }
  }

  /** Sorting the distinct names of a map's keys. */
  lemma {:induction false} SortSorts(names: seq<string>)
    requires Distinct(names)
    ensures Sorted(SortStrings(names))
    ensures forall x :: x in SortStrings(names) <==> x in names
  {
    if names != [] {
      assert names[0] !in names[1..];
      SortSorts(names[1..]);
      InsertKeepsSorted(names[0], SortStrings(names[1..]));
    }
  }

  lemma FirstIsMember(names: seq<string>)
    requires names != []
    ensures names[0] in names
  {
  }

  /** Two sorted lists of the same names are the same list. */
  lemma {:induction false} SortedIsUnique(a: seq<string>, b: seq<string>)
    requires Sorted(a) && Sorted(b)
    requires forall x :: x in a <==> x in b
    ensures a == b
  {
    if a == [] {
      if b != [] {
        FirstIsMember(b);
      }
    } else {
      assert a[0] in b && b != [];
      assert b[0] in a;
      LessIsTotal(a[0], b[0]);
      assert a[0] == b[0];
      assert forall i :: 0 < i < |a| ==> a[i] != a[0] by {
        forall i | 0 < i < |a| ensures a[i] != a[0] { LessIsTotal(a[0], a[i]); }
      }
      assert forall i :: 0 < i < |b| ==> b[i] != b[0] by {
        forall i | 0 < i < |b| ensures b[i] != b[0] { LessIsTotal(b[0], b[i]); }
      }
      var s, t := a[1..], b[1..];
      assert forall x :: x in a <==> x == a[0] || x in s;
      assert forall x :: x in b <==> x == b[0] || x in t;
      SortedIsUnique(s, t);
    }
  }

  // ----- the written list

  function Names(list: seq<EventLogState>): (r: seq<string>)
    ensures |r| == |list| && forall i :: 0 <= i < |list| ==> r[i] == list[i].name
  {
    seq(|list|, i requires 0 <= i < |list| => list[i].name)
  }

  /** The states of m in the given order of names. */
  function Listed(m: States, names: seq<string>): (r: seq<EventLogState>)
    requires forall k :: k in names ==> k in m
    ensures |r| == |names| && forall i :: 0 <= i < |names| ==> r[i] == m[names[i]]
  {
    seq(|names|, i requires 0 <= i < |names| => assert names[i] in names; m[names[i]])
  }

  /** A list of all the states of m, strictly sorted by name. */
  ghost predicate IsSnapshot(list: seq<EventLogState>, m: States) {
    Sorted(Names(list)) && KeyedByName(m) && Load(list) == m
  }

  lemma {:induction false} FoldKeepsKeys(m: States, updates: seq<EventLogState>)
    requires KeyedByName(m)
    ensures KeyedByName(Fold(m, updates))
    decreases |updates|
  {
    if updates != [] {
      FoldKeepsKeys(m, updates[..|updates| - 1]);
    }
  }

  lemma {:induction false} FoldConcat(m: States, a: seq<EventLogState>, b: seq<EventLogState>)
    ensures Fold(m, a + b) == Fold(Fold(m, a), b)
    decreases |b|
  {
    if b == [] {
      assert a + b == a;
    } else {
      FoldConcat(m, a, b[..|b| - 1]);
      assert (a + b)[..|a + b| - 1] == a + b[..|b| - 1];
    }
  }

  /** Loading a list maps each name to its last state in the list. */
  lemma {:induction false} LoadIsLastWins(list: seq<EventLogState>)
    ensures forall k :: k in Load(list) <==> k in Names(list)
    ensures forall i ::
      0 <= i < |list| && list[i].name !in Names(list)[i + 1..] ==>
      list[i].name in Load(list) && Load(list)[list[i].name] == list[i]
    decreases |list|
  {
    if list != [] {
      var init := list[..|list| - 1];
      LoadIsLastWins(init);
      assert Names(list) == Names(init) + [Last(list).name];
      forall i | 0 <= i < |list| && list[i].name !in Names(list)[i + 1..]
        ensures list[i].name in Load(list) && Load(list)[list[i].name] == list[i]
      {
        if i < |init| {
          assert Names(list)[i + 1..] == Names(init)[i + 1..] + [Last(list).name];
          assert Last(list).name in Names(list)[i + 1..];
        }
      }
    }
  }

  /** Reloading what was written gives back the map. */
  lemma WrittenListReloads(m: States, names: seq<string>)
    requires KeyedByName(m) && Sorted(names)
    requires forall k :: k in names <==> k in m
    ensures IsSnapshot(Listed(m, names), m)
  {
    var list := Listed(m, names);
    forall i | 0 <= i < |list| ensures Names(list)[i] == names[i] {
      assert names[i] in names;
    }
    assert Names(list) == names;
    LoadIsLastWins(list);
    forall k | k in m ensures k in Load(list) && Load(list)[k] == m[k] {
      var i :| 0 <= i < |names| && names[i] == k;
      forall j | i < j < |names| ensures names[j] != k {
        LessIsTotal(names[i], names[j]);
      }
      assert list[i].name == k && k !in Names(list)[i + 1..];
    }
    assert Load(list) == m;
  }

  /** The written list is determined by the map alone. */
  lemma SnapshotIsUnique(a: seq<EventLogState>, b: seq<EventLogState>, m: States)
    requires IsSnapshot(a, m) && IsSnapshot(b, m)
    ensures a == b
  {
    LoadIsLastWins(a);
    LoadIsLastWins(b);
    assert forall x :: x in Names(a) <==> x in Names(b);
    SortedIsUnique(Names(a), Names(b));
    forall i | 0 <= i < |a| ensures a[i] == b[i] {
      SortedNoLater(Names(a), i);
      assert a[i].name == Names(a)[i] && b[i].name == Names(b)[i];
    }
  }

  lemma SortedNoLater(names: seq<string>, i: nat)
    requires Sorted(names) && i < |names|
    ensures names[i] !in names[i + 1..]
  {
    forall j | i < j < |names| ensures names[j] != names[i] {
      LessIsTotal(names[i], names[j]);
    }
  }

  /** Reloading any list and flushing it writes its canonical form: sorted by name, one state
      per name, the last one of that name in the list. Doing it again changes nothing. */
  lemma ReloadThenFlush(list: seq<EventLogState>, out: seq<EventLogState>, again: seq<EventLogState>)
    requires IsSnapshot(out, Load(list)) && IsSnapshot(again, Load(out))
    ensures again == out
    ensures forall k :: k in Names(out) <==> k in Names(list)
    ensures forall s, i ::
      s in out && 0 <= i < |list| && list[i].name == s.name && s.name !in Names(list)[i + 1..] ==>
      s == list[i]
  {
    SnapshotIsUnique(again, out, Load(list));
    LoadIsLastWins(list);
    LoadIsLastWins(out);
    forall s, i | s in out && 0 <= i < |list| && list[i].name == s.name && s.name !in Names(list)[i + 1..]
      ensures s == list[i]
    {
      var j :| 0 <= j < |out| && out[j] == s;
      SortedNoLater(Names(out), j);
      assert out[j].name == Names(out)[j];
    }
  }

  // ----- the disk and the checkpoint object

  /** Contents of a file: missing, complete, or anything else. */
  datatype File = Absent | Complete(list: seq<EventLogState>) | Broken

  class Disk {
    var main: File
    var temp: File

    constructor (main: File)
      ensures this.main == main && temp == Absent
    {
      this.main, temp := main, Absent;
    }
  }

  /** Which of the calls of one flush succeed. */
  datatype Io = Io(create: bool, write: bool, rename: bool) {
    predicate Ok() { create && write && rename }
  }

  datatype Input =
    | Save(state: EventLogState, io: Io)   // an update arrives; io is for the flush it may start
    | Timer(io: Io)
    | Done(io: Io)

  /** What the worker owns, as a value. */
  datatype Image = Image(states: States, numUpdates: nat, main: File, temp: File)

  /** The file after a flush of m: untouched unless all three calls succeed. */
  ghost predicate Flushed(before: Image, after: Image, io: Io) {
    && after.states == before.states
    && (if io.Ok() then after.main.Complete? && IsSnapshot(after.main.list, before.states) && after.temp == Absent
        else after.main == before.main
             && (if !io.create then after.temp == before.temp
                 else if !io.write then after.temp == Broken
                 else after.temp.Complete? && IsSnapshot(after.temp.list, before.states)))
  }

  ghost predicate Persisted(before: Image, after: Image, io: Io) {
    if before.numUpdates == 0 then after == before
    else Flushed(before, after, io) && after.numUpdates == (if io.Ok() then 0 else before.numUpdates)
  }

  /** One turn of the worker loop. */
  ghost predicate Turn(maxUpdates: nat, before: Image, after: Image, input: Input) {
    match input
    case Save(s, io) =>
      var got := before.(states := Apply(before.states, s), numUpdates := before.numUpdates + 1);
      if got.numUpdates < maxUpdates then after == got else Persisted(got, after, io)
    case Timer(io) => Persisted(before, after, io)
    case Done(io) => Persisted(before, after, io)
  }

  /** The worker has nothing left to save: a complete file holds what is in memory. */
  ghost predicate AllSaved(after: Image) {
    after.numUpdates == 0 && after.main.Complete? && IsSnapshot(after.main.list, after.states)
  }

  /** What a turn means. An update always reaches the map. A flush is due when an update fills the
      batch, or at a timer or at the end with updates unsaved; if it succeeds all is saved, and if
      it fails the file stays as it was and the count is kept. With no flush due nothing of the
      disk changes. */
  lemma TurnMeans(maxUpdates: nat, before: Image, after: Image, input: Input)
    requires Turn(maxUpdates, before, after, input)
    ensures after.states == if input.Save? then before.states[input.state.name := input.state] else before.states
    ensures var unsaved := before.numUpdates + if input.Save? then 1 else 0;
            var due := unsaved > 0 && (input.Save? ==> unsaved >= maxUpdates);
            if due && input.io.create && input.io.write && input.io.rename then AllSaved(after)
            else after.numUpdates == unsaved && after.main == before.main && (!due ==> after.temp == before.temp)
  {
  }

  class Checkpoint {
    const disk: Disk
    const maxUpdates: nat
    var numUpdates: nat
    var sort: seq<string>
    var states: States

    ghost predicate Valid()
      reads this
    {
      maxUpdates >= 1 && KeyedByName(states)
    }

    ghost function Now(): Image
      reads this, disk
    {
      Image(states, numUpdates, disk.main, disk.temp)
    }

    /** The fields NewCheckpoint starts from, with the minimum batch size of one. */
    constructor (disk: Disk, maxUpdates: int)
      ensures Valid() && this.disk == disk && states == map[] && numUpdates == 0
      ensures this.maxUpdates == if maxUpdates < 1 then 1 else maxUpdates
    {
      this.disk := disk;
      this.maxUpdates := if maxUpdates < 1 then 1 else maxUpdates;
      numUpdates, sort, states := 0, [], map[];
    }

    /** The rest of NewCheckpoint: load what is there, then flush it back; a file that cannot
        be read, or a flush that fails, is an error. */
    method Open(io: Io) returns (ok: bool)
      requires Valid() && states == map[] && numUpdates == 0
      modifies this, disk
      ensures Valid() && numUpdates == 0
      ensures old(disk.main).Broken? ==> !ok && Now() == old(Now())
      ensures !old(disk.main).Broken? ==> ok == io.Ok()
      ensures !old(disk.main).Broken? ==>
        states == (if old(disk.main).Absent? then map[] else Load(old(disk.main).list))
        && Flushed(old(Now()).(states := states), Now(), io)
      ensures ok ==> AllSaved(Now())
      ensures !ok ==> disk.main == old(disk.main)
    {
      match disk.main {
        case Broken => return false;
        case Absent =>
        case Complete(list) =>
          for i := 0 to |list|
            invariant numUpdates == 0 && disk.main == old(disk.main) && disk.temp == old(disk.temp)
            invariant Valid() && states == Load(list[..i])
          {
            assert list[..i + 1][..i] == list[..i];
            states := states[list[i].name := list[i]];
          }
          assert list[..|list|] == list;
      }
      ok := Flush(io);
    }

    /** Collect the keys in whatever order the map yields them, sort them, write, rename. */
    method Flush(io: Io) returns (ok: bool)
      requires Valid()
      modifies this`sort, disk
      ensures ok == io.Ok() && Flushed(old(Now()), Now(), io) && numUpdates == old(numUpdates)
      ensures ok ==> disk.main.Complete? && IsSnapshot(disk.main.list, states)
      ensures !ok ==> disk.main == old(disk.main)
    {
      if !io.create {
        return false;
      }
      disk.temp := Broken;
      sort := CollectKeys();
      SortSorts(sort);
      sort := SortStrings(sort);
      WrittenListReloads(states, sort);
      var list := Listed(states, sort);
      if !io.write {
        return false;
      }
      disk.temp := Complete(list);
      if !io.rename {
        return false;
      }
      disk.main, disk.temp := disk.temp, Absent;
      ok := true;
    }

    method CollectKeys() returns (keys: seq<string>)
      ensures Distinct(keys) && forall k :: k in keys <==> k in states
    {
      keys := [];
      var left := states.Keys;
      while left != {}
        invariant Distinct(keys)
        invariant forall k :: k in left ==> k in states && k !in keys
        invariant forall k :: k in states ==> k in left || k in keys
        invariant forall k :: k in keys ==> k in states
        decreases left
      {
        var k :| k in left;
        keys, left := keys + [k], left - {k};
      }
    }

    method Persist(io: Io) returns (wrote: bool)
      requires Valid()
      modifies this`sort, this`numUpdates, disk
      ensures Valid() && Persisted(old(Now()), Now(), io)
      ensures wrote <==> old(numUpdates) > 0 && io.Ok()
      ensures wrote ==> AllSaved(Now())
      ensures !wrote ==> numUpdates == old(numUpdates) && disk.main == old(disk.main)
    {
      if numUpdates == 0 {
        return false;
      }
      wrote := Flush(io);
      if wrote {
        numUpdates := 0;
      }
    }

    /** One iteration of the worker's select; a Done is the deferred persist on the way out. */
    method Step(input: Input)
      requires Valid()
      modifies this, disk
      ensures Valid() && Turn(maxUpdates, old(Now()), Now(), input)
      ensures states == if input.Save? then old(states)[input.state.name := input.state] else old(states)
      ensures var unsaved := old(numUpdates) + if input.Save? then 1 else 0;
              var due := unsaved > 0 && (input.Save? ==> unsaved >= maxUpdates);
              if due && input.io.Ok() then AllSaved(Now())
              else numUpdates == unsaved && disk.main == old(disk.main)
    {
      match input {
        case Save(s, io) =>
          states := states[s.name := s];
          numUpdates := numUpdates + 1;
          if numUpdates < maxUpdates {
            return;
          }
        case Timer(_) =>
        case Done(_) =>
      }
      var _ := Persist(input.io);
    }
  }
}
