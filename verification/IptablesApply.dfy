/** iptablesBackend.Apply and Teardown. */
module IptablesApply {
  import opened Wrappers
  import opened Sorting
  import opened Backend
  import opened Diff
  import opened IpKernel
  import opened Iptables
  import opened IptablesSafety
  import opened IptablesMeaning
  import opened IptablesDelta

  // The backend's memory and the kernel together, as values.
  datatype Memory = Memory(last: Option<State>, kernel: Kernel)

  ghost predicate InSync(m: Memory) {
    WellKept(m.kernel) && (m.last.Some? ==> Exact(m.kernel, m.last.value) && OwnersInRange(m.last.value))
  }

  // What goes wrong during one Apply: how many steps its first payload and its rebuild get done, and which `-C` checks
  // fail although the jump is there.
  datatype Faults = Faults(update: nat, rebuild: nat, lies: set<Family>)

  ghost function Uids(state: State): seq<int> {
    SortedInts(state.perUser.Keys)
  }

  ghost predicate TakesDelta(m: Memory, state: State) {
    m.last.Some? && m.last.value.perUser.Keys == state.perUser.Keys
  }

  ghost function Rebuilt(kernel: Kernel, state: State, faults: Faults): (Memory, bool) {
    var (k, ok) := RunSteps(FullSteps(state, Uids(state)), faults.rebuild, faults.lies, kernel);
    (Memory(if ok then Some(state) else None, k), ok)
  }

  // An empty delta runs nothing, which is also what running no steps does.
  ghost function Updated(m: Memory, state: State, faults: Faults): (Kernel, bool)
    requires m.last.Some?
  {
    RunSteps(DeltaSteps(m.last.value, state, Uids(state)), faults.update, faults.lies, m.kernel)
  }

  // What one Apply does.
  ghost function Applied(m: Memory, state: State, faults: Faults): (Memory, bool) {
    if !TakesDelta(m, state) then Rebuilt(m.kernel, state, faults)
    else
      var (k, ok) := Updated(m, state, faults);
      if ok then (Memory(Some(state), k), true) else Rebuilt(k, state, faults)
  }

  class IptablesBackend {
    var last: StateRef?
    var kernel: Kernel // changed only through Run

    constructor (kernel: Kernel)
      ensures last == null && this.kernel == kernel
    {
      last, this.kernel := null, kernel;
    }

    ghost function Snapshot(): set<object>
      reads this, last
    {
      if last == null then {} else {last} + last.Slices()
    }

    ghost function View(): Memory
      reads this, Snapshot()
    {
      Memory(if last == null then None else Some(last.Value()), kernel)
    }

    method Run(steps: seq<Step>, n: nat, lies: set<Family>) returns (ok: bool)
      modifies this`kernel
      ensures (kernel, ok) == RunSteps(steps, n, lies, old(kernel))
    {
      var r := RunSteps(steps, n, lies, kernel);
      kernel, ok := r.0, r.1;
    }

    method RebuildChain(f: Family, uids: seq<int>, n: nat, lies: set<Family>) returns (ok: bool)
      modifies this`kernel
      ensures (kernel, ok) == RunSteps([Restore(f, ChainRules(uids, f)), Hook(f)], n, lies, old(kernel))
    {
      var rules := BuildChain(f, uids);
      ok := Run([Restore(f, rules), Hook(f)], n, lies);
    }

    // All sets in one ipset restore, then both chains.
    method FullApply(state: State, uids: seq<int>, n: nat, lies: set<Family>) returns (ok: bool)
      modifies this`kernel
      ensures (kernel, ok) == RunSteps(FullSteps(state, uids), n, lies, old(kernel))
    {
      hide RefreshLines, RunSteps, ChainRules;
      var lines := BuildRefresh(state, uids);
      ghost var sets, k0 := SetSteps(lines, false), kernel;
      ghost var c4, c6 := [Restore(V4, ChainRules(uids, V4)), Hook(V4)], [Restore(V6, ChainRules(uids, V6)), Hook(V6)];
      RunStepsAppend(sets + c4, c6, n, lies, k0);
      RunStepsAppend(sets, c4, n, lies, k0);
      ok := Run(SetSteps(lines, false), n, lies);
      if ok {
        RunStepsAppend(c4, c6, n - |lines|, lies, kernel);
        ok := RebuildChain(V4, uids, n - |lines|, lies);
      }
      if ok {
        ok := RebuildChain(V6, uids, n - |lines| - 2, lies);
      }
    }

    // The kernel side of Apply: a full apply when the users changed, else the delta, healed by a full apply.
    method Reconcile(prev: Option<State>, wanted: State, faults: Faults) returns (ok: bool)
      modifies this`kernel
      ensures (Memory(if ok then Some(wanted) else None, kernel), ok)
                == Applied(Memory(prev, old(kernel)), wanted, faults)
    {
      hide RunSteps, FullSteps, DeltaLines;
      var uids := SortedUids(wanted.perUser);
      var same := false;
      if prev.Some? {
        same := SameUids(prev.value.perUser, wanted.perUser);
      }
      if !same {
        ok := FullApply(wanted, uids, faults.rebuild, faults.lies);
        return;
      }
      ok := true;
      var delta := BuildSetDelta(prev.value, wanted, uids);
      if delta == [] {
        NoSteps(SetSteps(delta, true), faults.update, faults.lies, kernel);
      } else {
        ok := Run(SetSteps(delta, true), faults.update, faults.lies);
        if !ok {
          ok := FullApply(wanted, uids, faults.rebuild, faults.lies);
        }
      }
    }

    // The snapshot is a deep copy: no later edit of the caller's lists reaches it.
    method Apply(state: StateRef, faults: Faults) returns (ok: bool)
      modifies this
      ensures (View(), ok) == Applied(old(View()), old(state.Value()), faults)
      ensures last != null ==> fresh(last) && fresh(last.Slices())
    {
      hide Applied;
      var wanted := state.Value();
      var prev := if last == null then None else Some(last.Value());
      assert View() == Memory(prev, kernel);
      var snapshot := CloneState(state);
      assert snapshot.Value() == wanted && this !in snapshot.Slices();
      ok := Reconcile(prev, wanted, faults);
      assert snapshot.Value() == wanted;
      last := if ok then snapshot else null;
      assert View() == Memory(if ok then Some(wanted) else None, kernel);
    }

    // -D OUTPUT, -F and -X of one family, failures ignored.
    method RemoveChain(f: Family)
      modifies this`kernel
      ensures kernel == old(kernel).WithFilter(f, WithoutChain(old(kernel).FilterOf(f)))
    {
      var filter := kernel.FilterOf(f);
      filter := filter.(output := DetachJump(filter.output));
      if filter.chain.Some? {
        filter := filter.(chain := Some([]));
        if Jump !in filter.output {
          filter := filter.(chain := None);
        }
      }
      kernel := kernel.WithFilter(f, filter);
    }

    // listed is false when the sets cannot be listed; the other commands do what the kernel lets them do.
    method Teardown(listed: bool) returns (ok: bool)
      modifies this
      ensures last == null && ok == listed
      ensures kernel == if listed then TornDown(old(kernel)) else TornDown(old(kernel)).(sets := old(kernel).sets)
    {
      last := null;
      RemoveChain(V4);
      RemoveChain(V6);
      if !listed {
        return false;
      }
      ok := true;
      ghost var k0 := kernel;
      var names := kernel.sets.Keys;
      while names != {}
        invariant last == null && ok
        invariant names <= k0.sets.Keys
        invariant kernel == k0.(sets := kernel.sets)
        invariant kernel.sets == map n | n in k0.sets && (n in names || !(SET_PREFIX <= n)) :: k0.sets[n]
        decreases names
      {
        var n := NextOf(names);
        names := names - {n};
        if SET_PREFIX <= n {
          NothingInUse(kernel, n);
          kernel := kernel.(sets := kernel.sets - {n});
        }
      }
      assert kernel.sets == TornDown(old(kernel)).sets;
    }
  }

  lemma NoSteps(steps: seq<Step>, n: nat, lies: set<Family>, k: Kernel)
    requires steps == []
    ensures RunSteps(steps, n, lies, k) == (k, true)
  {
  }

  // ---------- One Apply ----------

  // Success makes the kernel exact and remembered; failure forgets the snapshot; either way the kernel stays reachable.
  lemma ApplyKeepsSync(m: Memory, state: State, faults: Faults)
    requires InSync(m)
    ensures var (m', ok) := Applied(m, state, faults);
            && InSync(m')
            && (ok ==> m'.last == Some(state) && Exact(m'.kernel, state))
            && (!ok ==> m'.last == None)
            && (ok ==> Loadable(IptablesIpset, state))
            && (DistinctLists(state) && faults.rebuild >= |FullSteps(state, Uids(state))| ==>
                  (ok <==> Loadable(IptablesIpset, state)))
  {
    hide Holdable, Exact, WellKept, FullSteps, DeltaSteps, RunSteps, DistinctLists;
    var uids := Uids(state);
    if TakesDelta(m, state) {
      DeltaRefinesFull(m.kernel, m.last.value, state, faults.update, faults.lies);
      var (k, ok) := Updated(m, state, faults);
      BetweenKept(m.kernel, k, m.last.value, state);
      FullApplyReaches(k, state, faults.rebuild, faults.lies);
      FullKept(k, state, faults.rebuild, faults.lies);
    } else {
      FullApplyReaches(m.kernel, state, faults.rebuild, faults.lies);
      FullKept(m.kernel, state, faults.rebuild, faults.lies);
    }
  }

  lemma BetweenKept(k0: Kernel, k: Kernel, prev: State, next: State)
    requires Between(k0, k, prev, next)
    ensures WellKept(k)
  {
    hide WellKept;
  }

  lemma FullKept(k0: Kernel, state: State, n: nat, lies: set<Family>)
    requires WellKept(k0)
    ensures WellKept(RunSteps(FullSteps(state, Uids(state)), n, lies, k0).0)
  {
    hide WellKept, FullSteps, RunSteps;
    FullApplyReaches(k0, state, n, lies);
    ReachedKept(k0, RunSteps(FullSteps(state, Uids(state)), n, lies, k0).0, state);
  }

  // Every-prefix safety of Apply, delta and healing included: wherever it stops, every packet dropped is one that the
  // kernel dropped before or that the new state blocks, and what one list blocks before and after stays blocked.
  lemma ApplyIsSafe(m: Memory, state: State, faults: Faults, p: Packet)
    requires InSync(m)
    ensures var k := Applied(m, state, faults).0.kernel;
            && (Drops(k, p) ==> Drops(m.kernel, p) || Blocks(state, p))
            && (forall t :: DropsThrough(m.kernel, t, p) && p.dst in Contents(state, t, p.family) ==>
                  DropsThrough(k, t, p))
  {
    hide Exact, WellKept, FullSteps, DeltaSteps, RunSteps, DropsThrough, Between, Reached, Contents;
    var k := Applied(m, state, faults).0.kernel;
    if !TakesDelta(m, state) {
      FullApplyReaches(m.kernel, state, faults.rebuild, faults.lies);
      ReachedIsSafe(m.kernel, k, state, p);
    } else {
      var (k1, ok) := Updated(m, state, faults);
      DeltaRefinesFull(m.kernel, m.last.value, state, faults.update, faults.lies);
      BetweenKept(m.kernel, k1, m.last.value, state);
      forall t
        ensures DropsThrough(k1, t, p) ==>
                  DropsThrough(m.kernel, t, p) || (Concerns(t, p) && p.dst in Contents(state, t, p.family))
        ensures DropsThrough(m.kernel, t, p) && p.dst in Contents(state, t, p.family) ==> DropsThrough(k1, t, p)
      {
        BetweenIsSafe(m.kernel, k1, m.last.value, state, t, p);
      }
      DropsThroughSome(m.kernel, p);
      DropsThroughSome(k1, p);
      BlocksThroughSome(state, p);
      if !ok {
        FullApplyReaches(k1, state, faults.rebuild, faults.lies);
        ReachedIsSafe(k1, k, state, p);
      }
    }
  }

  // ---------- Whole runs ----------

  datatype Call = Call(state: State, faults: Faults)

  ghost function AfterCalls(m: Memory, calls: seq<Call>): Memory {
    if calls == [] then m
    else Applied(AfterCalls(m, calls[..|calls| - 1]), calls[|calls| - 1].state, calls[|calls| - 1].faults).0
  }

  // From a fresh daemon on any reachable kernel, after any calls with failures anywhere, the memory never lies.
  lemma {:induction false} RunsStayInSync(k: Kernel, calls: seq<Call>)
    requires WellKept(k)
    ensures InSync(AfterCalls(Memory(None, k), calls))
  {
    hide Exact, WellKept, Applied;
    if calls != [] {
      var init, c := calls[..|calls| - 1], calls[|calls| - 1];
      RunsStayInSync(k, init);
      ApplyKeepsSync(AfterCalls(Memory(None, k), init), c.state, c.faults);
    }
  }

  // The remembered state is what the kernel does to packets.
  ghost predicate Remembers(m: Memory) {
    m.last.Some? ==> forall p :: Drops(m.kernel, p) <==> Blocks(m.last.value, p)
  }

  // Any call that succeeds now makes the kernel do what its state says.
  ghost predicate SucceedsExactly(m: Memory) {
    forall c: Call, p :: Applied(m, c.state, c.faults).1 ==>
      (Drops(Applied(m, c.state, c.faults).0.kernel, p) <==> Blocks(c.state, p))
  }

  // So a remembered state is what the kernel does, and one more successful call makes it the state of that call.
  lemma InSyncMeans(m: Memory)
    requires InSync(m)
    ensures Remembers(m) && SucceedsExactly(m)
  {
    hide Exact, WellKept, Applied, Drops;
    if m.last.Some? {
      forall p ensures Drops(m.kernel, p) <==> Blocks(m.last.value, p) {
        ExactMeansSpec(m.kernel, m.last.value, p);
      }
    }
    forall c: Call, p | Applied(m, c.state, c.faults).1
      ensures Drops(Applied(m, c.state, c.faults).0.kernel, p) <==> Blocks(c.state, p)
    {
      ApplyKeepsSync(m, c.state, c.faults);
      ExactMeansSpec(Applied(m, c.state, c.faults).0.kernel, c.state, p);
    }
  }

  // With the users and the membership of all lists as they were, nothing is run and nothing can fail.
  lemma NothingChangedNothingRun(m: Memory, state: State, faults: Faults)
    requires m.last.Some? && m.last.value.perUser.Keys == state.perUser.Keys
    requires forall t :: SameContents(m.last.value, state, t)
    ensures Applied(m, state, faults) == (Memory(Some(state), m.kernel), true)
  {
    hide FullSteps, DeltaLines, SameContents;
    DeltaMinimal(m.last.value, state);
    NoSteps(DeltaSteps(m.last.value, state, Uids(state)), faults.update, faults.lies, m.kernel);
  }

  // With the same users, an update that goes through leaves the chains and everybody's rules as they are.
  lemma UpdatesLeaveChains(m: Memory, state: State, faults: Faults)
    requires InSync(m) && TakesDelta(m, state) && Updated(m, state, faults).1
    ensures var k := Applied(m, state, faults).0.kernel; k.filter4 == m.kernel.filter4 && k.filter6 == m.kernel.filter6
  {
    hide Exact, WellKept, DeltaSteps, RunSteps;
    DeltaRefinesFull(m.kernel, m.last.value, state, faults.update, faults.lies);
  }

  // ---------- The hook ----------

  predicate AtMostOneJump(k: Kernel) {
    Jumps(k.filter4.output) <= 1 && Jumps(k.filter6.output) <= 1
  }

  lemma {:induction false} JumpsCount(output: seq<OutputRule>)
    ensures Jump in output <==> Jumps(output) >= 1
  {
    if output != [] {
      assert output == [output[0]] + output[1..];
      JumpsCount(output[1..]);
    }
  }

  // `-C` then `-I` keeps the jump unique exactly when the check tells the truth: one that fails for another reason
  // although the jump is there makes a second one.
  lemma HookOnce(k: Kernel, f: Family, lies: set<Family>)
    requires Jumps(k.FilterOf(f).output) <= 1 && k.FilterOf(f).chain.Some?
    ensures var r := ExecStep(Hook(f), lies, k);
            && r.Some?
            && (Jumps(r.value.FilterOf(f).output) == 1 <==> !(f in lies && Jump in k.FilterOf(f).output))
            && (Jumps(r.value.FilterOf(f).output) == 2 <==> f in lies && Jump in k.FilterOf(f).output)
  {
    var output := k.FilterOf(f).output;
    JumpsCount(output);
    assert ([Jump] + output)[1..] == output;
  }

  lemma {:induction false} StepsKeepJumps(steps: seq<Step>, n: nat, k: Kernel)
    requires AtMostOneJump(k)
    ensures AtMostOneJump(RunSteps(steps, n, {}, k).0)
  {
    if steps != [] && n > 0 && ExecStep(steps[0], {}, k).Some? {
      if steps[0].Hook? && k.FilterOf(steps[0].family).chain.Some? {
        HookOnce(k, steps[0].family, {});
      }
      StepsKeepJumps(steps[1..], n - 1, ExecStep(steps[0], {}, k).value);
    }
  }

  // Over whole runs with truthful checks: never more than one jump per family, and exactly one after a success.
  lemma {:induction false} RunsKeepJumps(k: Kernel, calls: seq<Call>)
    requires WellKept(k) && AtMostOneJump(k) && forall c :: c in calls ==> c.faults.lies == {}
    ensures var m := AfterCalls(Memory(None, k), calls);
            && AtMostOneJump(m.kernel)
            && (m.last.Some? ==> Jumps(m.kernel.filter4.output) == 1 && Jumps(m.kernel.filter6.output) == 1)
  {
    hide WellKept, FullSteps, DeltaSteps, RunSteps, AllRefreshed;
    var m := AfterCalls(Memory(None, k), calls);
    if calls != [] {
      var init, c := calls[..|calls| - 1], calls[|calls| - 1];
      assert c in calls;
      RunsKeepJumps(k, init);
      var m0 := AfterCalls(Memory(None, k), init);
      ApplyKeepsJumps(m0, c.state, c.faults);
      RunsStayInSync(k, calls);
      if m.last.Some? {
        assert FilterDone(m.kernel, m.last.value, V4) && FilterDone(m.kernel, m.last.value, V6);
        JumpsCount(m.kernel.filter4.output);
        JumpsCount(m.kernel.filter6.output);
      }
    }
  }

  lemma ApplyKeepsJumps(m: Memory, state: State, faults: Faults)
    requires AtMostOneJump(m.kernel) && faults.lies == {}
    ensures AtMostOneJump(Applied(m, state, faults).0.kernel)
  {
    hide FullSteps, DeltaSteps, RunSteps, AtMostOneJump;
    var full := FullSteps(state, Uids(state));
    if TakesDelta(m, state) {
      StepsKeepJumps(DeltaSteps(m.last.value, state, Uids(state)), faults.update, m.kernel);
      StepsKeepJumps(full, faults.rebuild, Updated(m, state, faults).0);
    } else {
      StepsKeepJumps(full, faults.rebuild, m.kernel);
    }
  }

  // ---------- Other people's rules ----------

  function Others(output: seq<OutputRule>): seq<OutputRule> {
    if output == [] then []
    else (if output[0] == Jump then [] else [output[0]]) + Others(output[1..])
  }

  // The other rules are all but our jumps.
  lemma {:induction false} OthersAre(output: seq<OutputRule>)
    ensures |Others(output)| + Jumps(output) == |output|
    ensures forall r :: r in Others(output) <==> r in output && r != Jump
  {
    if output != [] {
      OthersAre(output[1..]);
      assert output == [output[0]] + output[1..];
    }
  }

  lemma StepKeepsOthers(s: Step, lies: set<Family>, k: Kernel, f: Family)
    requires ExecStep(s, lies, k).Some?
    ensures Others(ExecStep(s, lies, k).value.FilterOf(f).output) == Others(k.FilterOf(f).output)
  {
    if s.SetLine? {
      assert ExecLine(s.line, s.exist, k).value.FilterOf(f) == k.FilterOf(f);
    } else if s.Hook? {
      assert ([Jump] + k.FilterOf(f).output)[1..] == k.FilterOf(f).output;
    }
  }

  // No step of ours changes, adds or removes anybody else's rule.
  lemma {:induction false} StepsKeepOthers(steps: seq<Step>, n: nat, lies: set<Family>, k: Kernel, f: Family)
    ensures Others(RunSteps(steps, n, lies, k).0.FilterOf(f).output) == Others(k.FilterOf(f).output)
  {
    hide Others, ExecStep;
    if steps != [] && n > 0 && ExecStep(steps[0], lies, k).Some? {
      StepKeepsOthers(steps[0], lies, k, f);
      StepsKeepOthers(steps[1..], n - 1, lies, ExecStep(steps[0], lies, k).value, f);
    }
  }

  // ---------- Teardown ----------

  // -D removes the first match only.
  function DetachJump(output: seq<OutputRule>): seq<OutputRule> {
    if output == [] then []
    else if output[0] == Jump then output[1..]
    else [output[0]] + DetachJump(output[1..])
  }

  // -X only removes a chain nothing jumps to any more.
  function WithoutChain(filter: Filter): Filter {
    var output := DetachJump(filter.output);
    Filter(output, if filter.chain.Some? && Jump in output then Some([]) else None)
  }

  // A set is destroyed unless a rule still refers to it; by then our chains have no rules.
  function TornDown(k: Kernel): Kernel {
    Kernel(map n | n in k.sets && !(SET_PREFIX <= n) :: k.sets[n], WithoutChain(k.filter4), WithoutChain(k.filter6))
  }

  lemma NothingInUse(k: Kernel, name: string)
    requires k.filter4.chain.None? || k.filter4.chain.value == []
    requires k.filter6.chain.None? || k.filter6.chain.value == []
    requires name in k.sets
    ensures ExecLine(Destroy(name), false, k) == Some(k.(sets := k.sets - {name}))
  {
  }

  lemma {:induction false} DetachCounts(output: seq<OutputRule>)
    ensures Jumps(DetachJump(output)) == (if Jumps(output) == 0 then 0 else Jumps(output) - 1)
    ensures Others(DetachJump(output)) == Others(output)
  {
    if output != [] && output[0] != Jump {
      DetachCounts(output[1..]);
      assert ([output[0]] + DetachJump(output[1..]))[1..] == DetachJump(output[1..]);
    }
  }

  // Teardown leaves no set of ours and nobody else's rule or set changed; the jump and the chain of a family are gone
  // exactly when there was at most one jump.
  lemma TeardownRemovesOurs(k: Kernel)
    ensures var k' := TornDown(k);
            && (forall n :: n in k'.sets <==> n in k.sets && !(SET_PREFIX <= n))
            && (forall n :: n in k'.sets ==> k'.sets[n] == k.sets[n])
            && (forall t, f :: SetName(t, f) !in k'.sets && TmpName(t, f) !in k'.sets)
            && forall f ::
                 && Others(k'.FilterOf(f).output) == Others(k.FilterOf(f).output)
                 && (Jump !in k'.FilterOf(f).output <==> Jumps(k.FilterOf(f).output) <= 1)
                 && (k.FilterOf(f).chain.Some? ==> (k'.FilterOf(f).chain.None? <==> Jumps(k.FilterOf(f).output) <= 1))
  {
    var k' := TornDown(k);
    forall f
      ensures Others(k'.FilterOf(f).output) == Others(k.FilterOf(f).output)
      ensures Jump !in k'.FilterOf(f).output <==> Jumps(k.FilterOf(f).output) <= 1
      ensures k.FilterOf(f).chain.Some? ==> (k'.FilterOf(f).chain.None? <==> Jumps(k.FilterOf(f).output) <= 1)
    {
      DetachCounts(k.FilterOf(f).output);
      JumpsCount(DetachJump(k.FilterOf(f).output));
    }
    assert forall t, f :: SET_PREFIX <= SetName(t, f) && SET_PREFIX <= TmpName(t, f);
  }
}
