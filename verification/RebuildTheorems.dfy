/** What the rebuild protocol guarantees over whole runs. */
module RebuildTheorems {
  import opened Wrappers
  import opened Sorting
  import opened Backend
  import opened Lists
  import opened Engine
  import opened RebuildProtocol
  import opened RebuildSafety
  import S = Store
  import F = Firewall

  lemma StepKeepsInv(parse: string -> Parsed, w: World, l: Label)
    requires Inv(parse, w) && Enabled(parse, w, l)
    ensures Inv(parse, Do(parse, w, l))
  {
    hide *;
    InvParts(parse, w);
    StepKeepsLocked(parse, w, l);
    StepKeepsFaithful(parse, w, l);
    StepKeepsMissed(parse, w, l);
    StepKeepsNothingLost(parse, w, l);
    StepKeepsLive(parse, w, l);
    StepKeepsFirewall(parse, w, l);
    StepKeepsMonotone(parse, w, l);
    StepKeepsOwnCommits(parse, w, l);
    InvParts(parse, Do(parse, w, l));
  }

  lemma InvParts(parse: string -> Parsed, w: World)
    ensures Inv(parse, w) <==>
              && Locked(w) && AllFaithful(w) && MissedIsWaiting(w) && NothingLost(w)
              && LiveMatches(parse, w) && FirewallKept(w) && Monotone(w) && OwnCommits(w)
  {
  }

  lemma InitialInv(parse: string -> Parsed, w: World)
    requires Initial(w)
    ensures Inv(parse, w)
  {
  }

  lemma {:induction false} RunKeepsInv(parse: string -> Parsed, w: World, labels: seq<Label>)
    requires Inv(parse, w) && Run(parse, w, labels)
    ensures Inv(parse, After(parse, w, labels))
    decreases labels
  {
    hide Inv, Do, Enabled;
    if labels != [] {
      StepKeepsInv(parse, w, labels[0]);
      RunKeepsInv(parse, Do(parse, w, labels[0]), labels[1..]);
    }
  }

  // ---------- No lost update ----------

  lemma CurrentRead(w: World, r: Reading, s: S.Scope)
    requires Locked(w) && Complete(r) && Faithful(w, r) && !Stale(w, r, s)
    ensures ReadVersion(r, s) == Some(Version(w, s)) && ReadList(r, s) == Current(w, s)
    ensures s.User? ==> (s.uid in r.users <==> s in w.history)
  {
    CompleteReadsAll(r);
  }

  // A complete reading that missed nothing is the store.
  lemma CurrentReading(w: World, r: Reading)
    requires Locked(w) && Complete(r) && Faithful(w, r) && forall s :: !Stale(w, r, s)
    ensures SnapshotOf(r) == CurrentSnapshot(w)
  {
    hide Faithful, Locked, ListAt, Version, ReadVersion;
    forall s ensures ReadList(r, s) == Current(w, s) {
      CurrentRead(w, r, s);
    }
    forall uid ensures uid in r.users <==> uid in StoredUids(w) {
      CurrentRead(w, r, S.User(uid));
      assert S.User(uid) in w.history <==> uid in StoredUids(w);
    }
    forall uid | uid in r.users ensures r.users[uid].list == Current(w, S.User(uid)) {
      assert ReadList(r, S.User(uid)) == Current(w, S.User(uid));
    }
    assert ReadList(r, S.Global) == Current(w, S.Global);
  }

  // However the operations interleave, once none is in flight and the last section succeeded, the firewall holds what
  // the present store and the present cache stand for: although loadAll takes no snapshot, no update is lost.
  lemma NoLostUpdate(parse: string -> Parsed, w0: World, labels: seq<Label>)
    requires Initial(w0) && Run(parse, w0, labels)
    requires var w := After(parse, w0, labels); AtRest(w) && w.lastOk
    ensures var w := After(parse, w0, labels);
            w.live.Some? && IsStateOf(w.live.value.state, CurrentSnapshot(w), w.cache, parse)
  {
    hide Inv, Do, Enabled, Run, After, IsStateOf, Faithful, Version, ListAt, Covers, ReadVersion;
    var w := After(parse, w0, labels);
    InitialInv(parse, w0);
    RunKeepsInv(parse, w0, labels);
    InvParts(parse, w);
    var r := w.live.value.reading;
    forall s ensures !Stale(w, r, s) {
      assert forall id :: !Owes(w, id, s);
    }
    CurrentReading(w, r);
  }

  // The store, through the present cache, blocks the packet: its destination is covered by the global list or by the
  // list of its owner.
  ghost predicate StoreBlocks(parse: string -> Parsed, w: World, p: Packet) {
    || Covers(Current(w, S.Global), w.cache, parse, p.family, p.dst)
    || Covers(Current(w, S.User(p.uid)), w.cache, parse, p.family, p.dst)
  }

  // Said for packets: what is live blocks exactly what the store does.
  lemma VerdictsAreCurrent(parse: string -> Parsed, w0: World, labels: seq<Label>, p: Packet)
    requires Initial(w0) && Run(parse, w0, labels)
    requires var w := After(parse, w0, labels); AtRest(w) && w.lastOk
    ensures var w := After(parse, w0, labels);
            w.live.Some? && (Blocks(w.live.value.state, p) <==> StoreBlocks(parse, w, p))
  {
    hide Inv, Run, After, IsStateOf, Covers;
    var w := After(parse, w0, labels);
    NoLostUpdate(parse, w0, labels);
    InitialInv(parse, w0);
    RunKeepsInv(parse, w0, labels);
    InvParts(parse, w);
    StateBlocks(w.live.value.state, CurrentSnapshot(w), w.cache, parse, p);
    UnstoredCoversNothing(w, p, w.cache, parse);
  }

  lemma UnstoredCoversNothing(w: World, p: Packet, cache: Cache, parse: string -> Parsed)
    requires Locked(w)
    ensures var s := CurrentSnapshot(w);
            && s.global == Current(w, S.Global)
            && (if p.uid in s.users then s.users[p.uid] == Current(w, S.User(p.uid))
                else !Covers(Current(w, S.User(p.uid)), cache, parse, p.family, p.dst))
  {
    assert S.User(p.uid) in w.history ==> p.uid in StoredUids(w);
  }

  // ---------- Reading one's own writes ----------

  // When an add or a remove has returned success, the firewall was built from a version of its scope that includes its
  // own commit, then and ever after.
  lemma ReadYourWrites(parse: string -> Parsed, w0: World, labels: seq<Label>, id: nat)
    requires Initial(w0) && Run(parse, w0, labels)
    requires var w := After(parse, w0, labels); id in w.ops && w.ops[id].req.Change? && w.ops[id].pc == Done(true)
    ensures var w := After(parse, w0, labels);
            var v := if w.live.Some? then ReadVersion(w.live.value.reading, w.ops[id].req.scope) else None;
            v.Some? && v.value >= w.ops[id].commit
  {
    hide Do, Enabled, Run, After, LiveMatches, IsStateOf, Faithful, Version, ListAt, ReadVersion;
    InitialInv(parse, w0);
    RunKeepsInv(parse, w0, labels);
    assert OwnCommit(After(parse, w0, labels), After(parse, w0, labels).ops[id]);
  }

  // Scope by scope, no Apply call is built from an older version than the call before it.
  lemma AppliesNeverGoBack(parse: string -> Parsed, w0: World, labels: seq<Label>, l: Label, s: S.Scope)
    requires Initial(w0) && Run(parse, w0, labels)
    requires var w := After(parse, w0, labels);
             Enabled(parse, w, l) && (l.ApplyFast? || l.ApplySlow?) && w.attempt.Some?
    ensures var w := After(parse, w0, labels);
            var before, now := ReadVersion(w.attempt.value, s), ReadVersion(w.ops[l.id].pc.reading, s);
            before.Some? && now.Some? && now.value >= before.value
  {
    hide Do, Run, After, LiveMatches, IsStateOf, Faithful, Version, ListAt, ReadVersion;
    var w := After(parse, w0, labels);
    InitialInv(parse, w0);
    RunKeepsInv(parse, w0, labels);
    CompleteReadsAll(w.attempt.value);
    CompleteReadsAll(w.ops[l.id].pc.reading);
    assert NotOlder(w.ops[l.id].pc.reading, w.attempt.value, s);
  }

  // What is live is what the last successful Apply call was given: a call that fails makes its operation fail and
  // leaves it as it was.
  lemma LiveIsLastSuccess(parse: string -> Parsed, w: World, l: Label)
    requires Enabled(parse, w, l)
    ensures var w' := Do(parse, w, l);
            if (l.ApplyFast? || l.ApplySlow?) && w'.ops[l.id].pc == Done(true) then
              w'.live.Some? && w'.live.value.state == l.state && w'.live.value.reading == w.ops[l.id].pc.reading
            else w'.live == w.live
  {
    hide F.Apply, F.Last, Wanted, Pruned, IsStateOf, SnapshotOf, Edited, ToResolve, Merged, StoredUids, SortedInts;
  }

  // ---------- Domain coverage ----------

  // The operation will still look for the domain, is looking it up, or holds its addresses.
  predicate Resolves(w: World, id: nat, d: string) {
    id in w.ops
    && var pc := w.ops[id].pc;
       || pc.Queued1? || pc.Loading1?
       || (pc.Resolving? && d in pc.want)
       || (pc.Queued2? && d in pc.resolved)
  }

  ghost predicate Accounted(w: World, d: string) {
    d in w.cache || d in w.failed || exists id :: Resolves(w, id, d)
  }

  predicate Stored(w: World, s: S.Scope, d: string) {
    d in Current(w, s).domains
  }

  ghost predicate Covered(w: World) {
    forall s, d :: Stored(w, s, d) ==> Accounted(w, d)
  }

  lemma WantedIsStored(w: World, d: string)
    requires Locked(w)
    ensures d in Wanted(CurrentSnapshot(w)) <==> exists s :: Stored(w, s, d)
  {
    var snap := CurrentSnapshot(w);
    forall uid ensures uid in snap.users <==> S.User(uid) in w.history {
      assert S.User(uid) in w.history <==> uid in StoredUids(w);
    }
    if d in Wanted(snap) {
      if d in snap.global.domains {
        assert Stored(w, S.Global, d);
      } else {
        var uid :| uid in snap.users && d in snap.users[uid].domains;
        assert Stored(w, S.User(uid), d);
      }
    }
    if s :| Stored(w, s, d) {
      assert s.User? ==> s.uid in snap.users && d in snap.users[s.uid].domains;
    }
  }

  // A stored domain that a section has not seen, even one that moved between scopes while it was reading, was put there
  // by a commit it missed.
  lemma UnseenIsWaiting(w: World, id: nat, s: S.Scope, d: string)
    requires Locked(w) && AllFaithful(w) && MissedIsWaiting(w)
    requires id in w.ops && IsLoading(w.ops[id].pc) && Complete(w.ops[id].pc.reading)
    requires Stored(w, s, d) && d !in Wanted(SnapshotOf(w.ops[id].pc.reading))
    ensures Waiting(w)
  {
    hide Version, ListAt, Waiting;
    var r := w.ops[id].pc.reading;
    CompleteReadsAll(r);
    assert Faithful(w, r);
    assert d !in ReadList(r, s).domains by {
      assert s.User? && s.uid in r.users ==> SnapshotOf(r).users[s.uid] == ReadList(r, s);
    }
    assert Stale(w, r, s);
  }

  lemma StepKeepsCovered(parse: string -> Parsed, w: World, l: Label)
    requires Locked(w) && AllFaithful(w) && MissedIsWaiting(w) && Covered(w) && Enabled(parse, w, l)
    requires !(l.ReadFails? && w.ops[l.id].pc.Loading1?)
    ensures Covered(Do(parse, w, l))
  {
    hide F.Apply, AllFaithful, MissedIsWaiting, IsStateOf, Edited, Wanted, SnapshotOf, Version, ListAt, StoredUids,
         SortedInts;
    var w' := Do(parse, w, l);
    forall s, d | Stored(w', s, d) ensures Accounted(w', d) {
      if l.Commit? {
        assert Resolves(w', l.id, d);
      } else {
        VersionsGrow(parse, w, l, s);
        assert Stored(w, s, d);
        if l.GoResolve? || l.ApplyFast? || l.ApplySlow? {
          FinishCovers(parse, w, l, s, d);
        } else {
          if d !in w.cache && d !in w.failed {
            var id :| Resolves(w, id, d);
            assert Resolves(w', id, d) || d in w'.cache || d in w'.failed;
          } else if l.Answers? && d in l.resolved {
            assert Resolves(w', l.id, d);
          }
        }
      }
    }
  }

  lemma UncachedIsSought(w: World, op: Op, r: Reading, now: int, d: string)
    requires Complete(r) && d in Wanted(SnapshotOf(r)) && d !in w.cache
    ensures d in Unresolved(w, op, r, now)
  {
  }

  lemma FinishCovers(parse: string -> Parsed, w: World, l: Label, s: S.Scope, d: string)
    requires Locked(w) && AllFaithful(w) && MissedIsWaiting(w) && Enabled(parse, w, l)
    requires Stored(w, s, d) && Accounted(w, d) && (l.GoResolve? || l.ApplyFast? || l.ApplySlow?)
    ensures Accounted(Do(parse, w, l), d)
  {
    hide F.Apply, AllFaithful, MissedIsWaiting, IsStateOf, Edited, Wanted, SnapshotOf, Version, ListAt, StoredUids,
         SortedInts;
    var w' := Do(parse, w, l);
    var r := w.ops[l.id].pc.reading;
    if d !in Wanted(SnapshotOf(r)) {
      UnseenIsWaiting(w, l.id, s, d);
      var y :| y in w.ops && w.ops[y].pc.Queued1?;
      assert Resolves(w', y, d);
    } else if d !in w.cache && d !in w.failed {
      if !l.ApplySlow? {
        UncachedIsSought(w, w.ops[l.id], r, l.now, d);
      }
      if l.GoResolve? {
        assert Resolves(w', l.id, d);
      } else if l.ApplySlow? {
        var y :| Resolves(w, y, d);
        assert Resolves(w', y, d);
      }
    }
  }

  // No store read fails in a first section; in second sections reads may fail.
  ghost predicate FirstReadsSucceed(parse: string -> Parsed, w: World, labels: seq<Label>)
    requires Run(parse, w, labels)
    decreases labels
  {
    labels != [] ==>
      && !(labels[0].ReadFails? && w.ops[labels[0].id].pc.Loading1?)
      && FirstReadsSucceed(parse, Do(parse, w, labels[0]), labels[1..])
  }

  lemma {:induction false} RunKeepsCovered(parse: string -> Parsed, w: World, labels: seq<Label>)
    requires Inv(parse, w) && Covered(w) && Run(parse, w, labels) && FirstReadsSucceed(parse, w, labels)
    ensures Covered(After(parse, w, labels))
    decreases labels
  {
    hide Inv, Do, Enabled, Covered;
    if labels != [] {
      InvParts(parse, w);
      StepKeepsInv(parse, w, labels[0]);
      StepKeepsCovered(parse, w, labels[0]);
      RunKeepsCovered(parse, Do(parse, w, labels[0]), labels[1..]);
    }
  }

  lemma InitialCovered(w: World)
    requires Initial(w)
    ensures Covered(w)
  {
    forall d ensures Accounted(w, d) {
      assert Resolves(w, 0, d);
    }
  }

  // At any moment every stored domain has cached addresses, or its last resolution failed, or some operation in flight
  // is to look for it; at rest, only domains whose last resolution failed have no addresses.
  lemma DomainCoverage(parse: string -> Parsed, w0: World, labels: seq<Label>, d: string)
    requires Initial(w0) && Run(parse, w0, labels) && FirstReadsSucceed(parse, w0, labels)
    requires d in Wanted(CurrentSnapshot(After(parse, w0, labels)))
    ensures var w := After(parse, w0, labels); Accounted(w, d) && (AtRest(w) ==> d in w.cache || d in w.failed)
  {
    hide Inv, Do, Enabled, Run, After, Wanted, CurrentSnapshot, FirstReadsSucceed, Stored;
    InitialInv(parse, w0);
    RunKeepsInv(parse, w0, labels);
    InitialCovered(w0);
    RunKeepsCovered(parse, w0, labels);
    InvParts(parse, After(parse, w0, labels));
    WantedIsStored(After(parse, w0, labels), d);
  }
}
