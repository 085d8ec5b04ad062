/** The rebuild protocol gets on: it is never stuck, and once no more requests come it comes to rest. */
module RebuildProgress {
  import opened Wrappers
  import opened Sorting
  import opened Backend
  import opened Lists
  import opened Engine
  import opened RebuildProtocol
  import opened RebuildSafety
  import opened RebuildTheorems
  import S = Store
  import F = Firewall
  import N = NftApply
  import I = IptablesApply

  // ---------- Never stuck ----------

  ghost function SetOf(bl: BlockList, cache: Cache, parse: string -> Parsed): IPSet {
    StringLessStrict();
    IPSet(AscendingOf(StringLess, AddressesOf(bl, cache, parse, V4)),
          AscendingOf(StringLess, AddressesOf(bl, cache, parse, V6)))
  }

  // One of the states the engine may build.
  ghost function StateOf(s: Snapshot, cache: Cache, parse: string -> Parsed): State {
    State(SetOf(s.global, cache, parse),
          map uid | uid in s.users && !BlocksNothing(s.users[uid], cache, parse) :: SetOf(s.users[uid], cache, parse))
  }

  lemma StateExists(s: Snapshot, cache: Cache, parse: string -> Parsed)
    ensures IsStateOf(StateOf(s, cache, parse), s, cache, parse)
  {
    hide SetOf, IsSetOf, BlocksNothing;
    SetExists(s.global, cache, parse);
    forall uid | uid in s.users ensures IsSetOf(SetOf(s.users[uid], cache, parse), s.users[uid], cache, parse) {
      SetExists(s.users[uid], cache, parse);
    }
  }

  lemma SetExists(bl: BlockList, cache: Cache, parse: string -> Parsed)
    ensures IsSetOf(SetOf(bl, cache, parse), bl, cache, parse)
  {
    hide Covers, AddressesOf, StringLess;
    StringLessStrict();
    AddressesCovered(bl, cache, parse);
    var r := SetOf(bl, cache, parse);
    AscendingDistinct(StringLess, r.v4);
    AscendingDistinct(StringLess, r.v6);
    forall f ensures Distinct(r.Of(f)) && forall a :: a in r.Of(f) <==> Covers(bl, cache, parse, f, a) {
      assert f == V4 || f == V6;
      assert forall a :: a in r.Of(f) <==> a in Elements(r.Of(f));
    }
  }

  // An operation that has not returned.
  predicate InFlight(w: World, id: nat) {
    id in w.ops && !w.ops[id].pc.Done?
  }

  // The lock holder can always go on, whatever it is at.
  lemma LoadingStep(parse: string -> Parsed, w: World, id: nat) returns (l: Label)
    requires id in w.ops && IsLoading(w.ops[id].pc)
    ensures Enabled(parse, w, l) && l.id == id
  {
    hide F.Apply, Wanted, Pruned, IsStateOf, Unresolved, StateOf;
    var r := w.ops[id].pc.reading;
    if r.global.None? {
      return ReadGlobal(id);
    } else if r.todo.None? {
      return ListUids(id);
    } else if r.todo.value != [] {
      return ReadUser(id);
    }
    var s := SnapshotOf(r);
    var state := StateOf(s, Pruned(w.cache, Wanted(s)), parse);
    StateExists(s, Pruned(w.cache, Wanted(s)), parse);
    if w.ops[id].pc.Loading2? {
      return ApplySlow(id, state, NO_FAULTS);
    } else if Unresolved(w, w.ops[id], r, 0) == {} {
      return ApplyFast(id, 0, state, NO_FAULTS);
    } else {
      return GoResolve(id, 0);
    }
  }

  const NO_FAULTS := F.Faults((N.Fine, N.Fine), I.Faults(0, 0, {}))

  // As long as some operation is in flight, one that is can take a step.
  lemma NeverStuck(parse: string -> Parsed, w: World) returns (l: Label)
    requires Locked(w) && !AtRest(w)
    ensures Enabled(parse, w, l) && !l.Spawn? && InFlight(w, l.id)
  {
    hide F.Apply, Wanted, Pruned, IsStateOf, Unresolved, Builds;
    if w.holder.Some? {
      l := LoadingStep(parse, w, w.holder.value);
    } else {
      var id :| id in w.ops && !w.ops[id].pc.Done?;
      var pc := w.ops[id].pc;
      l := if pc.Start? then Commit(id)
           else if pc.Queued1? then Lock1(id)
           else if pc.Resolving? then Answers(id, map[], pc.want)
           else Lock2(id, 0);
    }
  }

  // ---------- Coming to rest ----------

  ghost function Starters(w: World): set<nat> {
    set id | id in w.ops && w.ops[id].pc.Start?
  }

  // No listing can ever find more uids than this, while no request comes.
  ghost function Room(w: World): nat {
    |StoredUids(w)| + |Starters(w)|
  }

  function Left(r: Reading, room: nat): nat {
    if r.global.None? then room + 3 else if r.todo.None? then room + 2 else |r.todo.value| + 1
  }

  // No operation takes more steps than this.
  function Cost(op: Op, room: nat): nat {
    match op.pc
    case Start => 2 * (room + 4) + 2
    case Queued1 => 2 * (room + 4) + 1
    case Loading1(r) => room + 5 + Left(r, room)
    case Resolving(_) => room + 5
    case Queued2(_) => room + 4
    case Loading2(r) => Left(r, room)
    case Done(_) => 0
  }

  ghost function Work(ops: map<nat, Op>, ids: set<nat>, room: nat): nat
    requires ids <= ops.Keys
  {
    if ids == {} then 0
    else
      var id := Pick(ids);
      Cost(ops[id], room) + Work(ops, ids - {id}, room)
  }

  ghost function WorkLeft(w: World): nat {
    Work(w.ops, w.ops.Keys, Room(w))
  }

  lemma {:induction false} WorkOf(ops: map<nat, Op>, ids: set<nat>, room: nat, id: nat)
    requires id in ids && ids <= ops.Keys
    ensures Work(ops, ids, room) == Cost(ops[id], room) + Work(ops, ids - {id}, room)
    decreases |ids|
  {
    hide Cost;
    var first := Pick(ids);
    if first != id {
      WorkOf(ops, ids - {first}, room, id);
      WorkOf(ops, ids - {id}, room, first);
      assert ids - {first} - {id} == ids - {id} - {first};
    }
  }

  lemma {:induction false} LessWork(ops: map<nat, Op>, ops': map<nat, Op>, ids: set<nat>, room: nat, room': nat)
    requires ids <= ops.Keys && ids <= ops'.Keys
    requires forall id :: id in ids ==> Cost(ops'[id], room') <= Cost(ops[id], room)
    ensures Work(ops', ids, room') <= Work(ops, ids, room)
    decreases |ids|
  {
    hide Cost;
    if ids != {} {
      LessWork(ops, ops', ids - {Pick(ids)}, room, room');
    }
  }

  lemma CostGrows(op: Op, room: nat, room': nat)
    requires room' <= room
    ensures Cost(op, room') <= Cost(op, room)
  {
  }

  lemma RoomShrinks(parse: string -> Parsed, w: World, l: Label)
    requires Enabled(parse, w, l) && !l.Spawn?
    ensures Room(Do(parse, w, l)) <= Room(w)
  {
    hide F.Apply, Wanted, Pruned, IsStateOf, SnapshotOf, Edited, ToResolve, Merged, Builds, Unresolved, Current,
      Version,
         ListAt, SortedInts;
    if l.Commit? {
      CommitFits(parse, w, l);
    } else {
      var w' := Do(parse, w, l);
      assert w'.history == w.history;
      assert StoredUids(w') == StoredUids(w);
      assert Starters(w') <= Starters(w);
      SubsetSize(Starters(w'), Starters(w));
    }
  }

  lemma CommitFits(parse: string -> Parsed, w: World, l: Label)
    requires Enabled(parse, w, l) && l.Commit?
    ensures Room(Do(parse, w, l)) <= Room(w)
  {
    hide Edited, Current, Version, ListAt;
    var w' := Do(parse, w, l);
    var scope := w.ops[l.id].req.scope;
    assert Starters(w) == Starters(w') + {l.id};
    if scope.User? {
      assert StoredUids(w') == StoredUids(w) + {scope.uid};
    } else {
      assert StoredUids(w') == StoredUids(w);
    }
  }

  lemma ListedSize(w: World)
    ensures |SortedInts(StoredUids(w))| == |StoredUids(w)|
  {
    IntLessStrict();
    AscendingDistinct(IntLess, SortedInts(StoredUids(w)));
    DistinctSize(SortedInts(StoredUids(w)));
  }

  lemma StepTouches(parse: string -> Parsed, w: World, l: Label)
    requires Enabled(parse, w, l) && !l.Spawn?
    ensures var w' := Do(parse, w, l);
            && l.id in w.ops && w'.ops.Keys == w.ops.Keys
            && (forall id :: id in w.ops && id != l.id ==> w'.ops[id] == w.ops[id])
  {
    hide F.Apply, Wanted, Pruned, IsStateOf, SnapshotOf, Edited, ToResolve, Merged, Unresolved, Current, Version,
      ListAt,
         SortedInts, StoredUids, Starters, ReadVersion, ReadList;
  }

  predicate Reads(l: Label) {
    l.ReadGlobal? || l.ListUids? || l.ReadUser? || l.ReadFails?
  }

  lemma ReadCosts(parse: string -> Parsed, w: World, l: Label)
    requires AllFaithful(w) && Enabled(parse, w, l) && Reads(l)
    ensures Cost(Do(parse, w, l).ops[l.id], Room(w)) < Cost(w.ops[l.id], Room(w))
  {
    hide F.Apply, Wanted, Pruned, IsStateOf, SnapshotOf, Edited, ToResolve, Merged, Unresolved, Current, Version,
      ListAt,
         SortedInts, StoredUids, Starters, ReadVersion, ReadList;
    ListedSize(w);
    var r := w.ops[l.id].pc.reading;
    assert Faithful(w, r);
    assert l.ListUids? ==> Left(Do(parse, w, l).ops[l.id].pc.reading, Room(w)) == |StoredUids(w)| + 1;
    assert l.ReadUser? ==> |r.todo.value[1..]| == |r.todo.value| - 1;
  }

  lemma OtherCosts(parse: string -> Parsed, w: World, l: Label)
    requires Enabled(parse, w, l) && !l.Spawn? && !Reads(l)
    ensures Cost(Do(parse, w, l).ops[l.id], Room(w)) < Cost(w.ops[l.id], Room(w))
  {
    hide F.Apply, Wanted, Pruned, IsStateOf, SnapshotOf, Edited, ToResolve, Merged, Unresolved, Current, Version,
      ListAt,
         SortedInts, StoredUids, Starters, Room;
  }

  // A step costs the operation that takes it, and nobody else.
  lemma StepCosts(parse: string -> Parsed, w: World, l: Label)
    requires AllFaithful(w) && Enabled(parse, w, l) && !l.Spawn?
    ensures var w' := Do(parse, w, l);
            && l.id in w.ops && w'.ops.Keys == w.ops.Keys
            && (forall id :: id in w.ops && id != l.id ==> w'.ops[id] == w.ops[id])
            && Cost(w'.ops[l.id], Room(w)) < Cost(w.ops[l.id], Room(w))
  {
    hide Do, Enabled, Cost, Room, AllFaithful;
    StepTouches(parse, w, l);
    if Reads(l) {
      ReadCosts(parse, w, l);
    } else {
      OtherCosts(parse, w, l);
    }
  }

  lemma StepWorks(parse: string -> Parsed, w: World, l: Label)
    requires AllFaithful(w) && Enabled(parse, w, l) && !l.Spawn?
    ensures WorkLeft(Do(parse, w, l)) < WorkLeft(w)
  {
    hide Do, Enabled, Cost, Room, AllFaithful;
    var w' := Do(parse, w, l);
    StepCosts(parse, w, l);
    RoomShrinks(parse, w, l);
    var ids := w.ops.Keys;
    assert l.id in ids;
    CostGrows(w'.ops[l.id], Room(w), Room(w'));
    forall id | id in ids - {l.id} ensures Cost(w'.ops[id], Room(w')) <= Cost(w.ops[id], Room(w)) {
      CostGrows(w.ops[id], Room(w), Room(w'));
    }
    WorkOf(w.ops, ids, Room(w), l.id);
    WorkOf(w'.ops, ids, Room(w'), l.id);
    LessWork(w.ops, w'.ops, ids - {l.id}, Room(w), Room(w'));
  }

  ghost predicate NoRequests(labels: seq<Label>) {
    forall i :: 0 <= i < |labels| ==> !labels[i].Spawn?
  }

  // While no more requests come, every run is at rest after no more steps than this, and goes on until it is.
  lemma {:induction false} RestIsReached(parse: string -> Parsed, w: World, labels: seq<Label>)
    requires Inv(parse, w) && Run(parse, w, labels) && NoRequests(labels)
    ensures var w' := After(parse, w, labels);
            && |labels| + WorkLeft(w') <= WorkLeft(w)
            && (AtRest(w') <==> forall l :: Enabled(parse, w', l) ==> l.Spawn?)
    decreases labels
  {
    hide Inv, Do, Enabled, WorkLeft, AtRest;
    if labels != [] {
      StepKeepsInv(parse, w, labels[0]);
      InvParts(parse, w);
      StepWorks(parse, w, labels[0]);
      assert NoRequests(labels[1..]);
      RestIsReached(parse, Do(parse, w, labels[0]), labels[1..]);
    } else {
      InvParts(parse, w);
      RestIff(parse, w);
    }
  }

  lemma RestIff(parse: string -> Parsed, w: World)
    requires Locked(w)
    ensures AtRest(w) <==> forall l :: Enabled(parse, w, l) ==> l.Spawn?
  {
    hide F.Apply, Wanted, Pruned, IsStateOf, Unresolved, Builds;
    if !AtRest(w) {
      var l := NeverStuck(parse, w);
    }
  }
}
