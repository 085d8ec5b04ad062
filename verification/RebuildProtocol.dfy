/**
 The rebuild protocol: any number of add, remove and refresh operations, interleaved at every store access and every
 acquisition of the engine's lock. Only the lock holder touches the cache and the backend, so what it does between its
 last store access and its unlock is one step.
 */
module RebuildProtocol {
  import opened Wrappers
  import opened Sorting
  import opened Backend
  import opened Lists
  import opened Engine
  import S = Store
  import F = Firewall

  datatype Request = Change(scope: S.Scope, edit: Edit) | Refresh(mode: Mode)

  function ModeOf(r: Request): Mode {
    if r.Change? then ResolveMissing else r.mode
  }

  // One list as read, with the number of commits to its scope at that moment.
  datatype Read = Read(version: nat, list: BlockList)

  // The progress of loadAll: the global list, then the uids, then the list of each uid in turn.
  datatype Reading = Reading(global: Option<Read>, todo: Option<seq<int>>, users: map<int, Read>)

  const NOTHING_READ := Reading(None, None, map[])

  datatype Pc =
    | Start                                        // about to commit to the store
    | Queued1                                      // about to lock for the first section
    | Loading1(reading: Reading)
    | Resolving(want: set<string>)                 // off the lock
    | Queued2(resolved: map<string, Resolved>)     // about to lock for the second section
    | Loading2(reading: Reading)
    | Done(ok: bool)

  // commit is the version the operation's own commit made, 0 without one.
  datatype Op = Op(req: Request, commit: nat, pc: Pc)

  // A successful Apply: the state, and what it was built from.
  datatype Live = Live(state: State, reading: Reading, cache: Cache)

  datatype World = World(
    history: map<S.Scope, seq<BlockList>>, // all committed versions of each list; the store holds the last ones
    holder: Option<nat>,                   // the operation holding the engine's lock
    cache: Cache,
    ops: map<nat, Op>,
    attempt: Option<Reading>,              // what the last Apply call was built from
    live: Option<Live>,                    // the last successful Apply call
    lastOk: bool,                          // whether the last critical section that ended its operation succeeded
    firewall: F.Firewall,                  // the backend's memory and its kernel
    failed: set<string>)                   // domains whose most recent resolution failed

  function Version(w: World, s: S.Scope): nat {
    if s in w.history then |w.history[s]| else 0
  }

  function ListAt(w: World, s: S.Scope, v: nat): BlockList
    requires v <= Version(w, s)
  {
    if v == 0 then EMPTY else w.history[s][v - 1]
  }

  function Current(w: World, s: S.Scope): BlockList {
    ListAt(w, s, Version(w, s))
  }

  ghost function StoredUids(w: World): set<int> {
    set s | s in w.history && s.User? :: s.uid
  }

  ghost function CurrentSnapshot(w: World): Snapshot {
    Snapshot(Current(w, S.Global), map uid | uid in StoredUids(w) :: Current(w, S.User(uid)))
  }

  // The version a reading has of a scope, if it is past reading it; a uid that was not listed had no commits.
  function ReadVersion(r: Reading, s: S.Scope): Option<nat> {
    match s
    case Global => if r.global.Some? then Some(r.global.value.version) else None
    case User(uid) =>
      if uid in r.users then Some(r.users[uid].version)
      else if r.todo.Some? && uid !in r.todo.value then Some(0)
      else None
  }

  function ReadList(r: Reading, s: S.Scope): BlockList {
    match s
    case Global => if r.global.Some? then r.global.value.list else EMPTY
    case User(uid) => if uid in r.users then r.users[uid].list else EMPTY
  }

  predicate Complete(r: Reading) {
    r.global.Some? && r.todo == Some([])
  }

  function SnapshotOf(r: Reading): Snapshot
    requires Complete(r)
  {
    Snapshot(r.global.value.list, map uid | uid in r.users :: r.users[uid].list)
  }

  // ---------- The steps ----------

  datatype Label =
    | Spawn(id: nat, req: Request)
    | Commit(id: nat)
    | CommitFails(id: nat)
    | Lock1(id: nat)
    | ReadGlobal(id: nat)
    | ListUids(id: nat)
    | ReadUser(id: nat)
    | ReadFails(id: nat)
    | GoResolve(id: nat, now: int)
    | ApplyFast(id: nat, now: int, state: State, faults: F.Faults)
    | Answers(id: nat, resolved: map<string, Resolved>, failures: set<string>)
    | Lock2(id: nat, expires: int)
    | ApplySlow(id: nat, state: State, faults: F.Faults)

  predicate IsLoading(pc: Pc) {
    pc.Loading1? || pc.Loading2?
  }

  function WithReading(pc: Pc, r: Reading): Pc
    requires IsLoading(pc)
  {
    if pc.Loading1? then Loading1(r) else Loading2(r)
  }

  ghost predicate Builds(parse: string -> Parsed, w: World, r: Reading, state: State) {
    Complete(r) && IsStateOf(state, SnapshotOf(r), Pruned(w.cache, Wanted(SnapshotOf(r))), parse)
  }

  function Unresolved(w: World, op: Op, r: Reading, now: int): set<string>
    requires Complete(r)
  {
    ToResolve(Wanted(SnapshotOf(r)), w.cache, ModeOf(op.req), now)
  }

  ghost predicate Enabled(parse: string -> Parsed, w: World, l: Label) {
    if l.Spawn? then l.id !in w.ops
    else
      && l.id in w.ops
      && var op := w.ops[l.id];
         match l
         case Spawn(_, _) => false
         case Commit(_) => op.pc.Start? && op.req.Change?
         case CommitFails(_) => op.pc.Start?
         case Lock1(_) => op.pc.Queued1? && w.holder.None?
         case ReadGlobal(_) => IsLoading(op.pc) && op.pc.reading.global.None?
         case ListUids(_) => IsLoading(op.pc) && op.pc.reading.global.Some? && op.pc.reading.todo.None?
         case ReadUser(_) => IsLoading(op.pc) && op.pc.reading.todo.Some? && op.pc.reading.todo.value != []
         case ReadFails(_) => IsLoading(op.pc) && !Complete(op.pc.reading)
         case GoResolve(_, now) =>
           op.pc.Loading1? && Complete(op.pc.reading) && Unresolved(w, op, op.pc.reading, now) != {}
         case ApplyFast(_, now, state, _) =>
           && op.pc.Loading1? && Builds(parse, w, op.pc.reading, state)
           && Unresolved(w, op, op.pc.reading, now) == {}
         case Answers(_, resolved, failures) =>
           op.pc.Resolving? && resolved.Keys + failures == op.pc.want && resolved.Keys !! failures
         case Lock2(_, _) => op.pc.Queued2? && w.holder.None?
         case ApplySlow(_, state, _) => op.pc.Loading2? && Builds(parse, w, op.pc.reading, state)
  }

  function Goto(w: World, id: nat, pc: Pc): World
    requires id in w.ops
  {
    w.(ops := w.ops[id := w.ops[id].(pc := pc)])
  }

  // Prune, build, apply, unlock, return.
  ghost function Finish(w: World, id: nat, r: Reading, state: State, faults: F.Faults): World
    requires id in w.ops && Complete(r)
  {
    var (firewall, ok) := F.Apply(w.firewall, state, faults);
    var cache := Pruned(w.cache, Wanted(SnapshotOf(r)));
    var w' := Goto(w, id, Done(ok)).(cache := cache, holder := None, attempt := Some(r), lastOk := ok,
      firewall := firewall);
    if ok then w'.(live := Some(Live(state, r, cache))) else w'
  }

  ghost function Do(parse: string -> Parsed, w: World, l: Label): World
    requires Enabled(parse, w, l)
  {
    match l
    case Spawn(id, req) => w.(ops := w.ops[id := Op(req, 0, if req.Change? then Start else Queued1)])
    case Commit(id) =>
      var req := w.ops[id].req;
      var v := Version(w, req.scope) + 1;
      var older := if req.scope in w.history then w.history[req.scope] else [];
      w.(history := w.history[req.scope := older + [Edited(req.edit, Current(w, req.scope))]],
         ops := w.ops[id := Op(req, v, Queued1)])
    case CommitFails(id) => Goto(w, id, Done(false))
    case Lock1(id) => Goto(w, id, Loading1(NOTHING_READ)).(holder := Some(id))
    case ReadGlobal(id) =>
      var pc := w.ops[id].pc;
      Goto(w, id, WithReading(pc, pc.reading.(global := Some(Read(Version(w, S.Global), Current(w, S.Global))))))
    case ListUids(id) =>
      var pc := w.ops[id].pc;
      Goto(w, id, WithReading(pc, pc.reading.(todo := Some(SortedInts(StoredUids(w))))))
    case ReadUser(id) =>
      var pc := w.ops[id].pc;
      var uid := pc.reading.todo.value[0];
      var read := Read(Version(w, S.User(uid)), Current(w, S.User(uid)));
      Goto(w, id,
        WithReading(pc, pc.reading.(todo := Some(pc.reading.todo.value[1..]), users := pc.reading.users[uid := read])))
    case ReadFails(id) => Goto(w, id, Done(false)).(holder := None, lastOk := false)
    case GoResolve(id, now) =>
      Goto(w, id, Resolving(Unresolved(w, w.ops[id], w.ops[id].pc.reading, now))).(holder := None)
    case ApplyFast(id, _, state, faults) => Finish(w, id, w.ops[id].pc.reading, state, faults)
    case Answers(id, resolved, failures) =>
      Goto(w, id, Queued2(resolved)).(failed := (w.failed - resolved.Keys) + failures)
    case Lock2(id, expires) =>
      Goto(w, id, Loading2(NOTHING_READ)).(holder := Some(id), cache := Merged(w.cache, w.ops[id].pc.resolved, expires))
    case ApplySlow(id, state, faults) => Finish(w, id, w.ops[id].pc.reading, state, faults)
  }

  // The daemon starts with the persisted store, an empty cache, whatever kernel an earlier daemon left behind, and one
  // rebuild that resolves everything.
  ghost predicate Initial(w: World) {
    && (forall s :: s in w.history ==> w.history[s] != [])
    && w.holder.None? && w.cache == map[] && w.ops == map[0 := Op(Refresh(ResolveAll), 0, Queued1)]
    && w.attempt.None? && w.live.None? && !w.lastOk && w.failed == {}
    && F.InSync(w.firewall) && F.Last(w.firewall).None?
  }

  ghost predicate Run(parse: string -> Parsed, w: World, labels: seq<Label>)
    decreases labels
  {
    labels != [] ==> Enabled(parse, w, labels[0]) && Run(parse, Do(parse, w, labels[0]), labels[1..])
  }

  ghost function After(parse: string -> Parsed, w: World, labels: seq<Label>): World
    requires Run(parse, w, labels)
    decreases labels
  {
    if labels == [] then w else After(parse, Do(parse, w, labels[0]), labels[1..])
  }

  predicate AtRest(w: World) {
    forall id :: id in w.ops ==> w.ops[id].pc.Done?
  }
}
