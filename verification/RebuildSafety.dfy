/** Invariants of the rebuild protocol, and what they mean: no update is lost, and every domain is accounted for. */
module RebuildSafety {
  import opened Wrappers
  import opened Sorting
  import opened Backend
  import opened Lists
  import opened Engine
  import opened RebuildProtocol
  import S = Store
  import F = Firewall

  // ---------- The invariant ----------

  // Exactly the lock holder is inside a critical section.
  ghost predicate Exclusive(w: World) {
    && (w.holder.Some? ==> w.holder.value in w.ops && IsLoading(w.ops[w.holder.value].pc))
    && (forall id :: id in w.ops && IsLoading(w.ops[id].pc) ==> w.holder == Some(id))
    && (forall id :: id in w.ops && w.ops[id].pc.Start? ==> w.ops[id].req.Change?)
  }

  // A scope that was committed to has a version.
  ghost predicate Versioned(w: World) {
    forall s :: s in w.history ==> w.history[s] != []
  }

  ghost predicate Locked(w: World) {
    Versioned(w) && Exclusive(w)
  }

  // A reading holds, scope by scope, a version that was current when it was read. It need not be a snapshot.
  ghost predicate Faithful(w: World, r: Reading) {
    && (r.todo.None? ==> r.users == map[])
    && (r.todo.Some? ==> r.global.Some? && Distinct(r.todo.value))
    && (forall uid :: uid in r.users ==> r.users[uid].version > 0)
    && (r.todo.Some? ==> forall uid :: uid in r.todo.value ==> uid !in r.users && Version(w, S.User(uid)) > 0)
    && (forall s :: ReadVersion(r, s).Some? ==>
          && ReadVersion(r, s).value <= Version(w, s)
          && ReadList(r, s) == ListAt(w, s, ReadVersion(r, s).value))
  }

  ghost predicate AllFaithful(w: World) {
    && (forall id :: id in w.ops && IsLoading(w.ops[id].pc) ==> Faithful(w, w.ops[id].pc.reading))
    && (w.attempt.Some? ==> Complete(w.attempt.value) && Faithful(w, w.attempt.value))
    && (w.live.Some? ==> Complete(w.live.value.reading) && Faithful(w, w.live.value.reading) && w.attempt.Some?)
    && (w.lastOk ==> w.live.Some? && w.attempt == Some(w.live.value.reading))
  }

  // A commit that a running section has missed belongs to an operation still queued for its own section.
  ghost predicate Waiting(w: World) {
    exists id :: id in w.ops && w.ops[id].pc.Queued1?
  }

  predicate Stale(w: World, r: Reading, s: S.Scope) {
    ReadVersion(r, s).Some? && ReadVersion(r, s).value < Version(w, s)
  }

  ghost predicate MissedIsWaiting(w: World) {
    forall id, s :: id in w.ops && IsLoading(w.ops[id].pc) && Stale(w, w.ops[id].pc.reading, s) ==> Waiting(w)
  }

  // The operation will still apply a version of the scope as new as the current one.
  predicate Owes(w: World, id: nat, s: S.Scope) {
    id in w.ops
    && var pc := w.ops[id].pc;
       || pc.Queued1? || pc.Resolving? || pc.Queued2?
       || (IsLoading(pc) && !Stale(w, pc.reading, s))
  }

  ghost predicate NothingLost(w: World) {
    w.lastOk && w.live.Some? ==>
      forall s :: Stale(w, w.live.value.reading, s) ==> exists id :: Owes(w, id, s)
  }

  // The firewall holds what was built from the last reading and, outside second sections, from the present cache.
  ghost predicate LiveMatches(parse: string -> Parsed, w: World) {
    w.lastOk && w.live.Some? && Complete(w.live.value.reading) ==>
      && IsStateOf(w.live.value.state, SnapshotOf(w.live.value.reading), w.live.value.cache, parse)
      && ((forall id :: id in w.ops ==> !w.ops[id].pc.Loading2?) ==> w.cache == w.live.value.cache)
  }

  // The kernel is in step with the backend's memory, and what is remembered is what was last applied.
  ghost predicate FirewallKept(w: World) {
    && F.InSync(w.firewall)
    && (F.Last(w.firewall).Some? ==> w.live.Some? && F.Last(w.firewall) == Some(w.live.value.state))
    && (w.lastOk ==> F.Last(w.firewall).Some?)
  }

  predicate NotOlder(a: Reading, b: Reading, s: S.Scope) {
    ReadVersion(a, s).Some? && ReadVersion(b, s).Some? ==> ReadVersion(a, s).value >= ReadVersion(b, s).value
  }

  ghost predicate Monotone(w: World) {
    && (forall id, s :: id in w.ops && IsLoading(w.ops[id].pc) && w.attempt.Some? ==>
          NotOlder(w.ops[id].pc.reading, w.attempt.value, s))
    && (forall s :: w.live.Some? && w.attempt.Some? ==> NotOlder(w.attempt.value, w.live.value.reading, s))
  }

  // An operation's own commit is in whatever it reads, and in what is live once it has returned successfully.
  ghost predicate OwnCommit(w: World, op: Op) {
    op.req.Change? ==>
      && op.commit <= Version(w, op.req.scope)
      && (IsLoading(op.pc) && ReadVersion(op.pc.reading, op.req.scope).Some? ==>
            ReadVersion(op.pc.reading, op.req.scope).value >= op.commit)
      && (op.pc == Done(true) ==>
            && w.live.Some? && ReadVersion(w.live.value.reading, op.req.scope).Some?
            && ReadVersion(w.live.value.reading, op.req.scope).value >= op.commit)
  }

  ghost predicate OwnCommits(w: World) {
    forall id :: id in w.ops ==> OwnCommit(w, w.ops[id])
  }

  ghost predicate Inv(parse: string -> Parsed, w: World) {
    && Locked(w) && AllFaithful(w) && MissedIsWaiting(w) && NothingLost(w)
    && LiveMatches(parse, w) && FirewallKept(w) && Monotone(w) && OwnCommits(w)
  }

  lemma CompleteReadsAll(r: Reading)
    requires Complete(r)
    ensures forall s :: ReadVersion(r, s).Some?
  {
  }

  // ---------- Every step keeps it ----------

  lemma StepKeepsVersioned(parse: string -> Parsed, w: World, l: Label)
    requires Versioned(w) && Enabled(parse, w, l)
    ensures Versioned(Do(parse, w, l))
  {
    hide F.Apply, Wanted, Pruned, IsStateOf, SnapshotOf, Edited, ToResolve, Merged, Builds, StoredUids, SortedInts,
         Version, ListAt, Complete, Unresolved, Current, F.InSync, F.Last;
  }

  lemma StepKeepsExclusive(parse: string -> Parsed, w: World, l: Label)
    requires Exclusive(w) && Enabled(parse, w, l)
    ensures Exclusive(Do(parse, w, l))
  {
    hide F.Apply, Wanted, Pruned, IsStateOf, SnapshotOf, Edited, ToResolve, Merged, Builds, StoredUids, SortedInts,
         Version, ListAt, Complete, Unresolved, Current, F.InSync, F.Last;
  }

  lemma StepKeepsLocked(parse: string -> Parsed, w: World, l: Label)
    requires Locked(w) && Enabled(parse, w, l)
    ensures Locked(Do(parse, w, l))
  {
    hide Do, Enabled, Versioned, Exclusive;
    StepKeepsVersioned(parse, w, l);
    StepKeepsExclusive(parse, w, l);
  }

  // Commits only add versions.
  lemma VersionsGrow(parse: string -> Parsed, w: World, l: Label, s: S.Scope)
    requires Enabled(parse, w, l)
    ensures var w' := Do(parse, w, l);
            && Version(w, s) <= Version(w', s)
            && (!l.Commit? || w.ops[l.id].req.scope != s ==> Version(w', s) == Version(w, s))
            && forall v: nat :: v <= Version(w, s) ==> ListAt(w', s, v) == ListAt(w, s, v)
  {
    hide F.Apply, Wanted, Pruned, IsStateOf, SnapshotOf, Edited, ToResolve, Merged, Builds, StoredUids, SortedInts;
  }

  lemma FaithfulKept(parse: string -> Parsed, w: World, l: Label, r: Reading)
    requires Enabled(parse, w, l) && Faithful(w, r)
    ensures Faithful(Do(parse, w, l), r)
  {
    hide Do, Enabled, ReadVersion, ReadList, Version, ListAt;
    forall s
      ensures ReadVersion(r, s).Some? ==> ReadVersion(r, s).value <= Version(Do(parse, w, l), s)
      ensures ReadVersion(r, s).Some? ==> ReadList(r, s) == ListAt(Do(parse, w, l), s, ReadVersion(r, s).value)
      ensures Version(w, s) <= Version(Do(parse, w, l), s)
    {
      VersionsGrow(parse, w, l, s);
    }
  }

  // r' has read more than r, and what it has read since is current.
  ghost predicate Extends(w: World, r: Reading, r': Reading) {
    && Faithful(w, r')
    && forall s ::
         if ReadVersion(r, s).Some? then ReadVersion(r', s) == ReadVersion(r, s)
         else ReadVersion(r', s) == None || ReadVersion(r', s) == Some(Version(w, s))
  }

  // The three kinds of store access extend a reading.
  lemma ReadsExtend(w: World, r: Reading)
    requires Locked(w) && Faithful(w, r)
    ensures r.global.None? ==> Extends(w, r, r.(global := Some(Read(Version(w, S.Global), Current(w, S.Global)))))
    ensures r.global.Some? && r.todo.None? ==> Extends(w, r, r.(todo := Some(SortedInts(StoredUids(w)))))
    ensures r.todo.Some? && r.todo.value != [] ==>
              var uid := r.todo.value[0];
              var read := Read(Version(w, S.User(uid)), Current(w, S.User(uid)));
              Extends(w, r, r.(todo := Some(r.todo.value[1..]), users := r.users[uid := read]))
  {
    if r.todo.Some? && r.todo.value != [] {
      ReadUserExtends(w, r);
    }
    if r.todo.None? && r.global.Some? {
      ListUidsExtends(w, r);
    }
  }

  lemma ListUidsExtends(w: World, r: Reading)
    requires Locked(w) && Faithful(w, r) && r.todo.None? && r.global.Some?
    ensures Extends(w, r, r.(todo := Some(SortedInts(StoredUids(w)))))
  {
    hide Version, ListAt, SortedInts, StoredUids, Locked, Distinct;
    UidsListed(w);
    var uids := SortedInts(StoredUids(w));
    var r' := r.(todo := Some(uids));
    forall s
      ensures ReadVersion(r', s) == if s.Global? then ReadVersion(r, s) else if s.uid in uids then None else Some(0)
      ensures ReadList(r', s) == if s.Global? then ReadList(r, s) else EMPTY
    {
    }
  }

  lemma UidsListed(w: World)
    requires Locked(w)
    ensures var uids := SortedInts(StoredUids(w));
            && Distinct(uids)
            && forall uid :: if uid in uids then Version(w, S.User(uid)) > 0
                             else Version(w, S.User(uid)) == 0 && ListAt(w, S.User(uid), 0) == EMPTY
  {
    var uids := SortedInts(StoredUids(w));
    IntLessStrict();
    AscendingDistinct(IntLess, uids);
    forall uid ensures uid in uids <==> S.User(uid) in w.history {
      assert uid in uids <==> uid in Elements(uids);
      assert S.User(uid) in w.history <==> uid in StoredUids(w);
    }
  }

  lemma ReadUserExtends(w: World, r: Reading)
    requires Locked(w) && Faithful(w, r) && r.todo.Some? && r.todo.value != []
    ensures var uid := r.todo.value[0];
            var read := Read(Version(w, S.User(uid)), Current(w, S.User(uid)));
            Extends(w, r, r.(todo := Some(r.todo.value[1..]), users := r.users[uid := read]))
  {
    hide Version, ListAt;
    var todo, uid := r.todo.value, r.todo.value[0];
    var read := Read(Version(w, S.User(uid)), Current(w, S.User(uid)));
    var r' := r.(todo := Some(todo[1..]), users := r.users[uid := read]);
    assert todo == [uid] + todo[1..];
    assert forall u :: u in todo <==> u == uid || u in todo[1..];
    assert uid !in todo[1..];
    forall s
      ensures ReadVersion(r', s) == if s == S.User(uid) then Some(read.version) else ReadVersion(r, s)
      ensures ReadList(r', s) == if s == S.User(uid) then read.list else ReadList(r, s)
    {
    }
  }

  lemma StepKeepsFaithful(parse: string -> Parsed, w: World, l: Label)
    requires Locked(w) && AllFaithful(w) && Enabled(parse, w, l)
    ensures AllFaithful(Do(parse, w, l))
  {
    hide F.Apply, Wanted, Pruned, IsStateOf, SnapshotOf, Edited, ToResolve, Merged, StoredUids, SortedInts, Faithful,
         Unresolved, Current, Locked, Version, ListAt, ReadVersion, ReadList;
    var w' := Do(parse, w, l);
    if l.id in w.ops && IsLoading(w.ops[l.id].pc) {
      ReadsExtend(w, w.ops[l.id].pc.reading);
    }
    NothingReadFaithful(w);
    forall r: Reading | Faithful(w, r) ensures Faithful(w', r) {
      FaithfulKept(parse, w, l, r);
    }
  }

  lemma NothingReadFaithful(w: World)
    ensures Faithful(w, NOTHING_READ) && forall s :: ReadVersion(NOTHING_READ, s) == None
  {
  }

  // How one step changes the operation that takes it: unless it reads, its reading is new or gone.
  ghost predicate ReadingStep(w: World, w': World, id: nat) {
    id in w'.ops && IsLoading(w'.ops[id].pc) ==>
      if id in w.ops && IsLoading(w.ops[id].pc) then Extends(w, w.ops[id].pc.reading, w'.ops[id].pc.reading)
      else w'.ops[id].pc.reading == NOTHING_READ
  }

  lemma StepReads(parse: string -> Parsed, w: World, l: Label)
    requires Locked(w) && AllFaithful(w) && Enabled(parse, w, l)
    ensures ReadingStep(w, Do(parse, w, l), l.id)
    ensures forall id :: id != l.id ==> (id in w.ops <==> id in Do(parse, w, l).ops)
    ensures forall id :: id != l.id && id in w.ops ==> Do(parse, w, l).ops[id] == w.ops[id]
  {
    hide F.Apply, Wanted, Pruned, IsStateOf, SnapshotOf, Edited, ToResolve, Merged, StoredUids, SortedInts, Faithful,
         Extends, Unresolved, Current, Locked, Version, ListAt;
    if l.id in w.ops && IsLoading(w.ops[l.id].pc) {
      ReadsExtend(w, w.ops[l.id].pc.reading);
    }
  }

  lemma StepKeepsMissed(parse: string -> Parsed, w: World, l: Label)
    requires Locked(w) && AllFaithful(w) && MissedIsWaiting(w) && Enabled(parse, w, l)
    ensures MissedIsWaiting(Do(parse, w, l))
  {
    hide F.Apply, Wanted, Pruned, IsStateOf, SnapshotOf, Edited, ToResolve, Merged, StoredUids, SortedInts, Faithful,
         Version, ListAt;
    var w' := Do(parse, w, l);
    StepReads(parse, w, l);
    StepKeepsLocked(parse, w, l);
    forall id, s | id in w'.ops && IsLoading(w'.ops[id].pc) && Stale(w', w'.ops[id].pc.reading, s)
      ensures Waiting(w')
    {
      VersionsGrow(parse, w, l, s);
      if l.Commit? {
        assert w'.ops[l.id].pc.Queued1?;
      } else {
        assert id in w.ops && IsLoading(w.ops[id].pc) && Stale(w, w.ops[id].pc.reading, s);
        var y :| y in w.ops && w.ops[y].pc.Queued1?;
        assert y in w'.ops && w'.ops[y].pc.Queued1?;
      }
    }
  }

  lemma StepKeepsNothingLost(parse: string -> Parsed, w: World, l: Label)
    requires Locked(w) && AllFaithful(w) && MissedIsWaiting(w) && NothingLost(w) && Enabled(parse, w, l)
    ensures NothingLost(Do(parse, w, l))
  {
    hide F.Apply, Wanted, Pruned, IsStateOf, SnapshotOf, Edited, ToResolve, Merged, StoredUids, SortedInts, Faithful,
         Version, ListAt, Unresolved, Current;
    var w' := Do(parse, w, l);
    StepReads(parse, w, l);
    if w'.lastOk && w'.live.Some? {
      forall s | Stale(w', w'.live.value.reading, s) ensures exists id :: Owes(w', id, s) {
        VersionsGrow(parse, w, l, s);
        if l.Commit? && w.ops[l.id].req.scope == s {
          assert Owes(w', l.id, s);
        } else if l.ApplyFast? || l.ApplySlow? {
          assert Stale(w, w.ops[l.id].pc.reading, s);
          var y :| y in w.ops && w.ops[y].pc.Queued1?;
          assert Owes(w', y, s);
        } else {
          assert Stale(w, w.live.value.reading, s);
          var y :| Owes(w, y, s);
          assert Owes(w', y, s);
        }
      }
    }
  }

  lemma StepKeepsLive(parse: string -> Parsed, w: World, l: Label)
    requires Locked(w) && AllFaithful(w) && LiveMatches(parse, w) && Enabled(parse, w, l)
    ensures LiveMatches(parse, Do(parse, w, l))
  {
    hide F.Apply, Wanted, Pruned, IsStateOf, SnapshotOf, Edited, ToResolve, Merged, StoredUids, SortedInts, Faithful,
         Version, ListAt;
    var w' := Do(parse, w, l);
    StepReads(parse, w, l);
    if l.Lock2? {
      assert w'.ops[l.id].pc.Loading2?;
    } else if w'.lastOk && !l.ApplyFast? && !l.ApplySlow? {
      forall id | id in w.ops && w.ops[id].pc.Loading2? ensures id in w'.ops && w'.ops[id].pc.Loading2? {
      }
    }
  }

  lemma StepKeepsFirewall(parse: string -> Parsed, w: World, l: Label)
    requires FirewallKept(w) && Enabled(parse, w, l)
    ensures FirewallKept(Do(parse, w, l))
  {
    hide F.Apply, F.InSync, F.Last, Wanted, Pruned, IsStateOf, SnapshotOf, Edited, ToResolve, Merged, StoredUids,
         SortedInts, Version, ListAt;
    if l.ApplyFast? || l.ApplySlow? {
      F.ApplyKeepsSync(w.firewall, l.state, l.faults);
    }
  }

  // What is read next is current, so not older than anything that was read before.
  lemma ReadingOn(w: World, r: Reading, r': Reading, before: Reading)
    requires Extends(w, r, r') && Faithful(w, before)
    ensures forall s :: NotOlder(r, before, s) ==> NotOlder(r', before, s)
  {
    hide Version, ListAt, ReadVersion, ReadList;
  }

  // Sections read nothing older than the last Apply call was built from.
  lemma StepKeepsReadingsNew(parse: string -> Parsed, w: World, l: Label)
    requires Locked(w) && AllFaithful(w) && Monotone(w) && Enabled(parse, w, l)
    requires !l.ApplyFast? && !l.ApplySlow?
    ensures Monotone(Do(parse, w, l))
  {
    hide F.Apply, Locked, Wanted, Pruned, IsStateOf, SnapshotOf, Edited, ToResolve, Merged, StoredUids, SortedInts,
         Version, ListAt;
    hide ReadVersion, Faithful, Extends;
    var w' := Do(parse, w, l);
    StepReads(parse, w, l);
    NothingReadFaithful(w);
    if w.attempt.Some? && l.id in w.ops && IsLoading(w.ops[l.id].pc) && l.id in w'.ops && IsLoading(w'.ops[l.id].pc) {
      ReadingOn(w, w.ops[l.id].pc.reading, w'.ops[l.id].pc.reading, w.attempt.value);
    }
    forall id, s | id in w'.ops && IsLoading(w'.ops[id].pc) && w'.attempt.Some?
      ensures NotOlder(w'.ops[id].pc.reading, w'.attempt.value, s)
    {
      assert id in w.ops && IsLoading(w.ops[id].pc) ==> NotOlder(w.ops[id].pc.reading, w.attempt.value, s);
    }
  }

  lemma ApplyKeepsMonotone(parse: string -> Parsed, w: World, l: Label)
    requires Locked(w) && AllFaithful(w) && Monotone(w) && Enabled(parse, w, l)
    requires l.ApplyFast? || l.ApplySlow?
    ensures Monotone(Do(parse, w, l))
  {
    hide F.Apply, Wanted, Pruned, IsStateOf, SnapshotOf, Edited, ToResolve, Merged, StoredUids, SortedInts, Version,
         ListAt, ReadVersion;
    var w' := Do(parse, w, l);
    StepKeepsLocked(parse, w, l);
    if w.attempt.Some? {
      CompleteReadsAll(w.attempt.value);
    }
    var r := w.ops[l.id].pc.reading;
    assert w'.attempt == Some(r);
    forall s | w'.live.Some? ensures NotOlder(r, w'.live.value.reading, s) {
      assert w.live.Some? ==> NotOlder(w.attempt.value, w.live.value.reading, s) && NotOlder(r, w.attempt.value, s);
    }
  }

  lemma StepKeepsMonotone(parse: string -> Parsed, w: World, l: Label)
    requires Locked(w) && AllFaithful(w) && Monotone(w) && Enabled(parse, w, l)
    ensures Monotone(Do(parse, w, l))
  {
    hide Do, Enabled, Monotone;
    if l.ApplyFast? || l.ApplySlow? {
      ApplyKeepsMonotone(parse, w, l);
    } else {
      StepKeepsReadingsNew(parse, w, l);
    }
  }

  // Whatever is live after a step is no older than what was live before.
  lemma LiveGrows(parse: string -> Parsed, w: World, l: Label, s: S.Scope)
    requires Locked(w) && AllFaithful(w) && Monotone(w) && Enabled(parse, w, l) && w.live.Some?
    ensures var w' := Do(parse, w, l);
            && w'.live.Some?
            && ReadVersion(w.live.value.reading, s).Some? && ReadVersion(w'.live.value.reading, s).Some?
            && ReadVersion(w'.live.value.reading, s).value >= ReadVersion(w.live.value.reading, s).value
  {
    hide F.Apply, Wanted, Pruned, IsStateOf, SnapshotOf, Edited, ToResolve, Merged, StoredUids, SortedInts, Version,
         ListAt, ReadVersion, Faithful;
    CompleteReadsAll(w.live.value.reading);
    CompleteReadsAll(w.attempt.value);
    if l.ApplyFast? || l.ApplySlow? {
      var r := w.ops[l.id].pc.reading;
      CompleteReadsAll(r);
      assert NotOlder(r, w.attempt.value, s) && NotOlder(w.attempt.value, w.live.value.reading, s);
    }
  }

  // An operation that does not take the step.
  lemma OtherOwnCommit(parse: string -> Parsed, w: World, l: Label, op: Op)
    requires Locked(w) && AllFaithful(w) && Monotone(w) && Enabled(parse, w, l) && OwnCommit(w, op)
    ensures OwnCommit(Do(parse, w, l), op)
  {
    hide Do, Enabled, Version, ReadVersion, Locked, AllFaithful, Monotone;
    if op.req.Change? {
      VersionsGrow(parse, w, l, op.req.scope);
      if w.live.Some? {
        LiveGrows(parse, w, l, op.req.scope);
      }
    }
  }

  lemma TakingOwnCommit(parse: string -> Parsed, w: World, l: Label)
    requires Locked(w) && AllFaithful(w) && Enabled(parse, w, l) && (l.id in w.ops ==> OwnCommit(w, w.ops[l.id]))
    ensures OwnCommit(Do(parse, w, l), Do(parse, w, l).ops[l.id])
  {
    hide F.Apply, Wanted, Pruned, IsStateOf, SnapshotOf, Edited, ToResolve, Merged, StoredUids, SortedInts, Version,
         ListAt, ReadVersion, Faithful, Unresolved, Current, Locked;
    var w' := Do(parse, w, l);
    StepReads(parse, w, l);
    NothingReadFaithful(w);
    var op := w'.ops[l.id];
    if op.req.Change? {
      VersionsGrow(parse, w, l, op.req.scope);
      if l.ApplyFast? || l.ApplySlow? {
        CompleteReadsAll(w.ops[l.id].pc.reading);
      }
    }
    CommitVersion(parse, w, l);
  }

  lemma CommitVersion(parse: string -> Parsed, w: World, l: Label)
    requires Enabled(parse, w, l)
    ensures l.Commit? ==> var w' := Do(parse, w, l);
              w'.ops[l.id].req.Change? && w'.ops[l.id].commit == Version(w', w'.ops[l.id].req.scope)
  {
    hide Edited;
  }

  lemma StepKeepsOwnCommits(parse: string -> Parsed, w: World, l: Label)
    requires Locked(w) && AllFaithful(w) && Monotone(w) && OwnCommits(w) && Enabled(parse, w, l)
    ensures OwnCommits(Do(parse, w, l))
  {
    hide Do, Enabled, OwnCommit, Locked, AllFaithful, Monotone;
    var w' := Do(parse, w, l);
    StepReads(parse, w, l);
    TakingOwnCommit(parse, w, l);
    forall id | id in w'.ops ensures OwnCommit(w', w'.ops[id]) {
      if id != l.id {
        OtherOwnCommit(parse, w, l, w.ops[id]);
      }
    }
  }
}
