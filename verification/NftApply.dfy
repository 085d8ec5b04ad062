/** nftBackend.Apply and Teardown: the `last` snapshot stays in step with the kernel through every failure. */
module NftApply {
  import opened Wrappers
  import opened Backend
  import opened Diff
  import opened NftKernel
  import opened Nft
  import opened NftScript
  import opened NftMeaning

  // The backend's memory and the kernel's ruleset together, as values.
  datatype Memory = Memory(last: Option<State>, ruleset: Ruleset)

  // The memory never lies: the kernel holds exactly the table of the last applied state.
  ghost predicate InSync(m: Memory) {
    m.last.Some? ==> Implements(m.ruleset, m.last.value) && UidsInRange(m.last.value)
  }

  // The nft process may fail for reasons of its own, before the transaction or after it.
  datatype Outcome = Fine | Fails | FailsCommitted

  // What the kernel holds then, and whether nft reported success.
  function RunOrFail(script: seq<Cmd>, rs: Ruleset, how: Outcome): (Ruleset, bool) {
    match Run(script, rs)
    case None => (rs, false)
    case Some(rs') => (if how.Fails? then rs else rs', how.Fine?)
  }

  ghost predicate TakesDelta(m: Memory, state: State) {
    m.last.Some? && m.last.value.perUser.Keys == state.perUser.Keys
  }

  ghost function Rebuilt(rs: Ruleset, state: State, how: Outcome): (Memory, bool) {
    var (rs', ok) := RunOrFail(Script(state), rs, how);
    (Memory(if ok then Some(state) else None, rs'), ok)
  }

  // An empty delta runs nothing.
  ghost function Updated(m: Memory, state: State, how: Outcome): (Ruleset, bool)
    requires TakesDelta(m, state)
  {
    var delta := Delta(m.last.value, state);
    if delta == [] then (m.ruleset, true) else RunOrFail(delta, m.ruleset, how)
  }

  // What one Apply does; hows tells what becomes of its first and of its healing nft run.
  ghost function Applied(m: Memory, state: State, hows: (Outcome, Outcome)): (Memory, bool) {
    if !TakesDelta(m, state) then Rebuilt(m.ruleset, state, hows.0)
    else
      var (rs, ok) := Updated(m, state, hows.0);
      if ok then (Memory(Some(state), rs), true) else Rebuilt(rs, state, hows.1)
  }

  class NftBackend {
    var last: StateRef?
    var ruleset: Ruleset // the kernel's; only RunNft changes it

    constructor (ruleset: Ruleset)
      ensures last == null && this.ruleset == ruleset
    {
      last, this.ruleset := null, ruleset;
    }

    ghost function Snapshot(): set<object>
      reads this, last
    {
      if last == null then {} else {last} + last.Slices()
    }

    ghost function View(): Memory
      reads this, Snapshot()
    {
      Memory(if last == null then None else Some(last.Value()), ruleset)
    }

    method RunNft(script: seq<Cmd>, how: Outcome) returns (ok: bool)
      modifies this`ruleset
      ensures (ruleset, ok) == RunOrFail(script, old(ruleset), how)
    {
      var r := RunOrFail(script, ruleset, how);
      ruleset, ok := r.0, r.1;
    }

    method Rebuild(wanted: State, how: Outcome) returns (ok: bool)
      modifies this`ruleset
      ensures (Memory(if ok then Some(wanted) else None, ruleset), ok) == Rebuilt(old(ruleset), wanted, how)
    {
      var script := BuildScript(wanted);
      ok := RunNft(script, how);
    }

    // The kernel side of Apply: a full rebuild when the users changed, else the element delta, healed by a rebuild.
    method Reconcile(prev: Option<State>, wanted: State, first: Outcome, heal: Outcome) returns (ok: bool)
      modifies this`ruleset
      ensures (Memory(if ok then Some(wanted) else None, ruleset), ok)
           == Applied(Memory(prev, old(ruleset)), wanted, (first, heal))
    {
      var same := false;
      if prev.Some? {
        same := SameUids(prev.value.perUser, wanted.perUser);
      }
      if !same {
        ok := Rebuild(wanted, first);
        return;
      }
      ok := true;
      var delta := BuildDelta(prev.value, wanted);
      if delta != [] {
        ok := RunNft(delta, first);
        if !ok {
          ok := Rebuild(wanted, heal);
        }
      }
    }

    // The snapshot is a deep copy: no later edit of the caller's lists reaches it.
    method Apply(state: StateRef, first: Outcome, heal: Outcome) returns (ok: bool)
      modifies this
      ensures (View(), ok) == Applied(old(View()), old(state.Value()), (first, heal))
      ensures last != null ==> fresh(last) && fresh(last.Slices())
    {
      hide Applied;
      var wanted := state.Value();
      var prev := if last == null then None else Some(last.Value());
      assert View() == Memory(prev, ruleset);
      var snapshot := CloneState(state);
      assert snapshot.Value() == wanted && this !in snapshot.Slices();
      ok := Reconcile(prev, wanted, first, heal);
      assert snapshot.Value() == wanted;
      last := if ok then snapshot else null;
      assert View() == Memory(if ok then Some(wanted) else None, ruleset);
    }

    method Teardown(how: Outcome) returns (ok: bool)
      modifies this
      ensures last == null
      ensures ok == how.Fine?
      ensures ruleset == if how.Fails? then old(ruleset) else NoTable
    {
      last := null;
      var script := [AddTable, DeleteTable];
      assert Run(script, ruleset) == Some(NoTable) by {
        assert script[1..] == [DeleteTable];
        var added := Exec(AddTable, ruleset).value;
        RunOne(DeleteTable, added);
      }
      ok := RunNft(script, how);
    }
  }

  // One Apply: the promise of the Backend interface. Success makes the kernel match the state exactly; failure
  // leaves the previous ruleset or the new one whole and forgets the snapshot, so that the next Apply starts over.
  lemma ApplyKeepsSync(m: Memory, state: State, hows: (Outcome, Outcome))
    requires InSync(m)
    ensures var (m', ok) := Applied(m, state, hows);
            && InSync(m')
            && (ok ==> m'.last == Some(state) && Implements(m'.ruleset, state))
            && (!ok ==> m'.last == None && (m'.ruleset == m.ruleset || Implements(m'.ruleset, state)))
            && (ok ==> UidsInRange(state))
            && (UidsInRange(state) && hows == (Fine, Fine) ==> ok)
  {
    hide Run, Script, Delta, Implements;
    ScriptInstalls(state, m.ruleset);
    if TakesDelta(m, state) {
      ScriptInstalls(state, Updated(m, state, hows.0).0);
      DeltaRefinesScript(m.last.value, state, m.ruleset);
      if Delta(m.last.value, state) == [] {
        DeltaMinimal(m.last.value, state);
        SameMembershipSameTable(m.ruleset, m.last.value, state);
      }
    }
  }

  lemma SameMembershipSameTable(rs: Ruleset, a: State, b: State)
    requires Implements(rs, a) && a.perUser.Keys == b.perUser.Keys
    requires forall t :: SameContents(a, b, t)
    ensures Implements(rs, b)
  {
    forall t, f | HasTarget(b, t)
      ensures SetName(t, f) in rs.table.sets && rs.table.sets[SetName(t, f)] == ElementSet(f, Contents(b, t, f))
    {
      assert HasTarget(a, t) && SameContents(a, b, t);
      assert f == V4 || f == V6;
    }
  }

  // ---------- Whole runs ----------

  datatype Call = Call(state: State, hows: (Outcome, Outcome))

  ghost function AfterCalls(m: Memory, calls: seq<Call>): Memory {
    if calls == [] then m
    else
      var before := AfterCalls(m, calls[..|calls| - 1]);
      Applied(before, calls[|calls| - 1].state, calls[|calls| - 1].hows).0
  }

  // From a fresh daemon on whatever ruleset it finds, after any calls with failures anywhere, the memory never lies.
  lemma {:induction false} RunsStayInSync(rs: Ruleset, calls: seq<Call>)
    ensures InSync(AfterCalls(Memory(None, rs), calls))
  {
    hide Implements, Applied;
    if calls != [] {
      var init, c := calls[..|calls| - 1], calls[|calls| - 1];
      RunsStayInSync(rs, init);
      ApplyKeepsSync(AfterCalls(Memory(None, rs), init), c.state, c.hows);
    }
  }

  // The remembered state is what the kernel does to packets.
  ghost predicate Remembers(m: Memory) {
    m.last.Some? ==> forall p :: Drops(m.ruleset, p) <==> Blocks(m.last.value, p)
  }

  // Any call that succeeds now makes the kernel do what its state says.
  ghost predicate SucceedsExactly(m: Memory) {
    forall c: Call, p :: Applied(m, c.state, c.hows).1 ==>
      (Drops(Applied(m, c.state, c.hows).0.ruleset, p) <==> Blocks(c.state, p))
  }

  // So a remembered state is what the kernel does, and one more successful call makes it the state of that call.
  lemma InSyncMeans(m: Memory)
    requires InSync(m)
    ensures Remembers(m) && SucceedsExactly(m)
  {
    hide Implements, Applied, Drops;
    if m.last.Some? {
      forall p ensures Drops(m.ruleset, p) <==> Blocks(m.last.value, p) {
        ImplementsMeansSpec(m.ruleset, m.last.value, p);
      }
    }
    forall c: Call, p | Applied(m, c.state, c.hows).1
      ensures Drops(Applied(m, c.state, c.hows).0.ruleset, p) <==> Blocks(c.state, p)
    {
      ApplyKeepsSync(m, c.state, c.hows);
      ImplementsMeansSpec(Applied(m, c.state, c.hows).0.ruleset, c.state, p);
    }
  }

  // With the users and the membership of all lists as they were, nothing is run and nothing can fail.
  lemma NothingChangedNothingRun(m: Memory, state: State, hows: (Outcome, Outcome))
    requires m.last.Some? && m.last.value.perUser.Keys == state.perUser.Keys
    requires forall t :: SameContents(m.last.value, state, t)
    ensures Applied(m, state, hows) == (Memory(Some(state), m.ruleset), true)
  {
    hide Script, Delta, SameContents;
    DeltaMinimal(m.last.value, state);
  }

  // Somebody else removes the whole table behind a live snapshot. An Apply that runs nft without further failures heals
  // it exactly when some list changed: an empty delta issues no command and so notices nothing.
  lemma HealsRemovedTable(m: Memory, state: State)
    requires m.last.Some? && m.ruleset == NoTable && m.last.value.perUser.Keys == state.perUser.Keys
             && UidsInRange(state)
    ensures var (m', ok) := Applied(m, state, (Fine, Fine));
            ok && (Implements(m'.ruleset, state) <==> exists t :: !SameContents(m.last.value, state, t))
  {
    hide Script, SameContents;
    DeltaMinimal(m.last.value, state);
    ScriptInstalls(state, m.ruleset);
    var delta := Delta(m.last.value, state);
    if delta != [] {
      DeltaStartsInTable(m.last.value, state);
      assert Run(delta, NoTable) == None;
    }
  }

  lemma {:induction false} EachInTable(prev: State, next: State, uids: seq<int>)
    ensures forall c :: c in Each(uids, UserDelta(prev, next)) ==> c.AddElements? || c.DeleteElements?
  {
    if uids != [] {
      EachInTable(prev, next, uids[..|uids| - 1]);
    }
  }

  lemma DeltaStartsInTable(prev: State, next: State)
    requires Delta(prev, next) != []
    ensures Delta(prev, next)[0].AddElements? || Delta(prev, next)[0].DeleteElements?
  {
    EachInTable(prev, next, SortedInts(next.perUser.Keys));
    assert Delta(prev, next)[0] in Delta(prev, next);
  }
}
