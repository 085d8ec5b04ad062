/** How far a whole iptables Apply, delta, healing and rebuild together, is from atomic. */
module IptablesAtomicity {
  import opened Wrappers
  import opened Sorting
  import opened Backend
  import opened Diff
  import opened IpKernel
  import opened Iptables
  import opened IptablesSafety
  import opened IptablesMeaning
  import opened IptablesDelta
  import opened IptablesGap
  import opened IptablesApply

  // ---------- The delta, too, changes the global list first ----------

  lemma {:induction false} DelLinesMention(name: string, addrs: seq<Addr>)
    ensures forall i :: 0 <= i < |DelLines(name, addrs)| ==>
                          DelLines(name, addrs)[i].Del? && DelLines(name, addrs)[i].name == name
  {
    if addrs != [] {
      DelLinesMention(name, addrs[..|addrs| - 1]);
    }
  }

  lemma SetDeltaMentions(t: Target, f: Family, prev: seq<Addr>, next: seq<Addr>, name: string)
    requires name != SetName(t, f)
    ensures Silent(SetSteps(SetDelta(t, f, prev, next), true), name)
  {
    hide SetName, TmpName, NullAddr, AddLines, DelLines;
    AddLinesMention(SetName(t, f), Without(next, prev));
    DelLinesMention(SetName(t, f), Without(prev, next));
  }

  lemma TargetDeltaMentions(prev: State, next: State, t: Target, name: string)
    requires forall f :: name != SetName(t, f)
    ensures Silent(SetSteps(TargetDelta(prev, next, t), true), name)
  {
    hide SetName, TmpName, NullAddr, SetDelta, Mentions;
    SetDeltaMentions(t, V4, ListOf(prev, t, V4), ListOf(next, t, V4), name);
    SetDeltaMentions(t, V6, ListOf(prev, t, V6), ListOf(next, t, V6), name);
    var a := SetDelta(t, V4, ListOf(prev, t, V4), ListOf(next, t, V4));
    StepsOfConcat(a, SetDelta(t, V6, ListOf(prev, t, V6), ListOf(next, t, V6)), true);
  }

  lemma {:induction false} UserDeltasMention(prev: State, next: State, uids: seq<int>, name: string)
    requires forall uid, f :: name != SetName(OneUser(uid), f)
    ensures Silent(SetSteps(Each(uids, UserDelta(prev, next)), true), name)
  {
    hide SetName, TmpName, NullAddr, TargetDelta, Mentions;
    if uids != [] {
      var init, uid := uids[..|uids| - 1], uids[|uids| - 1];
      UserDeltasMention(prev, next, init, name);
      TargetDeltaMentions(prev, next, OneUser(uid), name);
      StepsOfConcat(Each(init, UserDelta(prev, next)), TargetDelta(prev, next, OneUser(uid)), true);
    }
  }

  function GlobalDelta(prev: State, next: State): seq<Step> {
    SetSteps(TargetDelta(prev, next, Everyone), true)
  }

  ghost function UserDeltas(prev: State, next: State): (steps: seq<Step>) {
    SetSteps(Each(SortedInts(next.perUser.Keys), UserDelta(prev, next)), true)
  }

  lemma DeltaParts(prev: State, next: State)
    ensures DeltaSteps(prev, next, SortedInts(next.perUser.Keys)) == GlobalDelta(prev, next) + UserDeltas(prev, next)
  {
    hide TargetDelta, Each;
    StepsOfConcat(TargetDelta(prev, next, Everyone), Each(SortedInts(next.perUser.Keys), UserDelta(prev, next)), true);
  }

  // Stopped anywhere, the lines for the global list leave the users' sets and the chains alone.
  lemma GlobalDeltaOnly(k0: Kernel, prev: State, next: State, n: nat, lies: set<Family>)
    requires Exact(k0, prev) && prev.perUser.Keys == next.perUser.Keys
    ensures var (k, ok) := RunSteps(GlobalDelta(prev, next), n, lies, k0);
            && k.filter4 == k0.filter4 && k.filter6 == k0.filter6 && WellKept(k)
            && (forall uid, f :: Content(k, OneUser(uid), f) == Content(k0, OneUser(uid), f))
            && ok == (n >= |GlobalDelta(prev, next)| && Holds(next, Everyone))
            && (ok ==> forall f :: Refreshed(k, next, Everyone, f))
  {
    hide SetName, TmpName, NullAddr, Contents, TargetDelta, RunSteps, Exact, Silent, Holds;
    var (k, ok) := RunSteps(GlobalDelta(prev, next), n, lies, k0);
    NothingMixed(k0, prev, next);
    RunTargetDelta(k0, k0, prev, next, {}, Everyone, n, lies);
    NamesInjective();
    forall uid, f ensures Content(k, OneUser(uid), f) == Content(k0, OneUser(uid), f) {
      TargetDeltaMentions(prev, next, Everyone, SetName(OneUser(uid), f));
      UnmentionedUntouched(GlobalDelta(prev, next), n, lies, k0, SetName(OneUser(uid), f));
    }
    if ok {
      forall f ensures Refreshed(k, next, Everyone, f) {
        assert f == V4 || f == V6;
        assert (Everyone, f) in {} + BothFamilies(Everyone);
        assert HasTarget(next, Everyone);
      }
    }
  }

  ghost function DeltaPrefix(k0: Kernel, prev: State, next: State, n: nat, lies: set<Family>): Kernel {
    RunSteps(DeltaSteps(prev, next, SortedInts(next.perUser.Keys)), n, lies, k0).0
  }

  lemma DeltaGlobalBeforeUsers(k0: Kernel, prev: State, next: State, n: nat, lies: set<Family>)
    requires Exact(k0, prev) && prev.perUser.Keys == next.perUser.Keys
    ensures var k := DeltaPrefix(k0, prev, next, n, lies);
            || (forall uid, f :: Content(k, OneUser(uid), f) == Content(k0, OneUser(uid), f))
            || (forall f :: Refreshed(k, next, Everyone, f))
  {
    hide SetName, TmpName, NullAddr, Contents, GlobalDelta, UserDeltas, DeltaSteps, RunSteps, Exact, Silent, Refreshed;
    var a, b := GlobalDelta(prev, next), UserDeltas(prev, next);
    DeltaParts(prev, next);
    RunStepsAppend(a, b, n, lies, k0);
    GlobalDeltaOnly(k0, prev, next, n, lies);
    var (k1, ok1) := RunSteps(a, n, lies, k0);
    if ok1 {
      forall f ensures Refreshed(DeltaPrefix(k0, prev, next, n, lies), next, Everyone, f) {
        UsersLeaveGlobal(k1, prev, next, n - |a|, lies, f);
      }
    }
  }

  lemma UsersLeaveGlobal(k: Kernel, prev: State, next: State, n: nat, lies: set<Family>, f: Family)
    requires Refreshed(k, next, Everyone, f)
    ensures Refreshed(RunSteps(UserDeltas(prev, next), n, lies, k).0, next, Everyone, f)
  {
    hide SetName, TmpName, NullAddr, Contents, RunSteps, Silent, Each, SetSteps;
    NamesInjective();
    UserDeltasMention(prev, next, SortedInts(next.perUser.Keys), SetName(Everyone, f));
    UnmentionedUntouched(UserDeltas(prev, next), n, lies, k, SetName(Everyone, f));
  }

  // ---------- One global set of the delta ----------

  // The lines up to and with those for one global set.
  function GlobalSetDelta(prev: State, next: State, f: Family): seq<Step> {
    SetSteps(if f == V4 then SetDelta(Everyone, V4, ListOf(prev, Everyone, V4), ListOf(next, Everyone, V4))
             else TargetDelta(prev, next, Everyone), true)
  }

  ghost function AfterGlobalDelta(prev: State, next: State, f: Family): seq<Step> {
    (if f == V4 then SetSteps(SetDelta(Everyone, V6, ListOf(prev, Everyone, V6), ListOf(next, Everyone, V6)), true)
     else []) + UserDeltas(prev, next)
  }

  lemma DeltaSetParts(prev: State, next: State, f: Family)
    ensures DeltaSteps(prev, next, SortedInts(next.perUser.Keys))
         == GlobalSetDelta(prev, next, f) + AfterGlobalDelta(prev, next, f)
  {
    hide SetDelta, UserDeltas, DeltaSteps;
    DeltaParts(prev, next);
    if f == V4 {
      StepsOfConcat(SetDelta(Everyone, V4, ListOf(prev, Everyone, V4), ListOf(next, Everyone, V4)),
                    SetDelta(Everyone, V6, ListOf(prev, Everyone, V6), ListOf(next, Everyone, V6)), true);
    }
  }

  lemma GlobalSetDeltaMentions(prev: State, next: State, f: Family, name: string)
    requires forall g :: name != SetName(Everyone, g)
    ensures Silent(GlobalSetDelta(prev, next, f), name)
  {
    hide SetName, SetDelta, TargetDelta, Silent;
    if f == V4 {
      SetDeltaMentions(Everyone, V4, ListOf(prev, Everyone, V4), ListOf(next, Everyone, V4), name);
    } else {
      TargetDeltaMentions(prev, next, Everyone, name);
    }
  }

  lemma GlobalSetDeltaRun(k0: Kernel, prev: State, next: State, f: Family, n: nat, lies: set<Family>)
    requires Exact(k0, prev) && prev.perUser.Keys == next.perUser.Keys
    ensures var (k, ok) := RunSteps(GlobalSetDelta(prev, next, f), n, lies, k0);
            && k.filter4 == k0.filter4 && k.filter6 == k0.filter6 && WellKept(k)
            && ok == (n >= |GlobalSetDelta(prev, next, f)| && GlobalLoads(next, f))
            && (ok ==> Refreshed(k, next, Everyone, f))
  {
    hide SetName, TmpName, NullAddr, TargetDelta, SetDelta, RunSteps, Exact, SetSteps;
    NothingMixed(k0, prev, next);
    if f == V4 {
      RunSetDelta(k0, k0, prev, next, {}, Everyone, V4, n, lies);
      assert (Everyone, V4) in {} + {(Everyone, V4)};
    } else {
      RunTargetDelta(k0, k0, prev, next, {}, Everyone, n, lies);
      assert (Everyone, V6) in {} + BothFamilies(Everyone);
    }
    assert HasTarget(next, Everyone);
  }

  // With a null address in the way, a delta removes nothing from the global set.
  lemma DeltaStuck(k0: Kernel, prev: State, next: State, f: Family, n: nat, lies: set<Family>)
    requires Exact(k0, prev) && prev.perUser.Keys == next.perUser.Keys && !GlobalLoads(next, f)
    ensures Content(k0, Everyone, f) <= Content(DeltaPrefix(k0, prev, next, n, lies), Everyone, f)
  {
    hide SetName, TmpName, NullAddr, Contents, RunSteps, GlobalSetDelta, AfterGlobalDelta, DeltaSteps, Exact, Content,
         WellKept;
    var g := if NullAddr(V4) in Contents(next, Everyone, V4) then V4 else V6;
    DeltaSetParts(prev, next, g);
    RunStepsAppend(GlobalSetDelta(prev, next, g), AfterGlobalDelta(prev, next, g), n, lies, k0);
    GlobalSetDeltaRun(k0, prev, next, g, n, lies);
    if f == V4 {
      FirstSetKept(k0, prev, next, n, lies);
    } else if g == V4 {
      SecondSetUntouched(k0, prev, next, n, lies);
    } else {
      SecondSetKept(k0, prev, next, n, lies);
    }
  }

  lemma FirstSetKept(k0: Kernel, prev: State, next: State, n: nat, lies: set<Family>)
    requires Exact(k0, prev) && prev.perUser.Keys == next.perUser.Keys && NullAddr(V4) in Contents(next, Everyone, V4)
    ensures Content(k0, Everyone, V4) <= Content(RunSteps(GlobalSetDelta(prev, next, V4), n, lies, k0).0, Everyone, V4)
  {
    hide SetName, TmpName, NullAddr, Contents, RunSteps, SetDelta, Exact;
    NothingMixed(k0, prev, next);
    RunSetDelta(k0, k0, prev, next, {}, Everyone, V4, n, lies);
    assert HasTarget(next, Everyone);
  }

  lemma SecondSetUntouched(k0: Kernel, prev: State, next: State, n: nat, lies: set<Family>)
    ensures Content(RunSteps(GlobalSetDelta(prev, next, V4), n, lies, k0).0, Everyone, V6) == Content(k0, Everyone, V6)
  {
    hide SetName, TmpName, NullAddr, RunSteps, SetDelta, SetSteps, Silent;
    NamesInjective();
    SetDeltaMentions(Everyone, V4, ListOf(prev, Everyone, V4), ListOf(next, Everyone, V4), SetName(Everyone, V6));
    UnmentionedUntouched(GlobalSetDelta(prev, next, V4), n, lies, k0, SetName(Everyone, V6));
  }

  lemma SecondSetKept(k0: Kernel, prev: State, next: State, n: nat, lies: set<Family>)
    requires Exact(k0, prev) && prev.perUser.Keys == next.perUser.Keys && NullAddr(V6) in Contents(next, Everyone, V6)
    ensures Content(k0, Everyone, V6) <= Content(RunSteps(GlobalSetDelta(prev, next, V6), n, lies, k0).0, Everyone, V6)
  {
    hide SetName, TmpName, NullAddr, Contents, RunSteps, SetDelta, Exact, Mixed, SetSteps;
    var a := SetDelta(Everyone, V4, ListOf(prev, Everyone, V4), ListOf(next, Everyone, V4));
    var b := SetDelta(Everyone, V6, ListOf(prev, Everyone, V6), ListOf(next, Everyone, V6));
    StepsOfConcat(a, b, true);
    RunStepsAppend(SetSteps(a, true), SetSteps(b, true), n, lies, k0);
    NothingMixed(k0, prev, next);
    RunSetDelta(k0, k0, prev, next, {}, Everyone, V4, n, lies);
    SecondSetUntouched(k0, prev, next, n, lies);
    var (k1, ok1) := RunSteps(SetSteps(a, true), n, lies, k0);
    if ok1 {
      var m: nat := n - |SetSteps(a, true)|;
      RunSetDelta(k0, k1, prev, next, {} + {(Everyone, V4)}, Everyone, V6, m, lies);
      MixedContent(k0, k0, prev, next, {}, Everyone, V6);
    }
  }

  lemma MixedContent(k0: Kernel, k: Kernel, prev: State, next: State, done: set<(Target, Family)>, t: Target, f: Family)
    requires Mixed(k0, k, prev, next, done) && HasTarget(next, t) && (t, f) !in done
    ensures Content(k, t, f) == Contents(prev, t, f)
  {
    hide SetName, TmpName, NullAddr;
  }

  // ---------- Which packets stay dropped ----------

  // What holds a packet through the full apply holds it through the delta.
  lemma DeltaHolds(k0: Kernel, prev: State, next: State, n: nat, lies: set<Family>, p: Packet)
    requires Exact(k0, prev) && prev.perUser.Keys == next.perUser.Keys && Blocks(prev, p) && Blocks(next, p)
    requires Lasts(prev, next, p)
    ensures Held(DeltaPrefix(k0, prev, next, n, lies), next, p) && WellKept(DeltaPrefix(k0, prev, next, n, lies))
  {
    hide SetName, TmpName, NullAddr, Contents, ChainRules, RunSteps, DeltaSteps, Exact, DropsThrough, GlobalLoads,
         Content;
    var k, f, own := DeltaPrefix(k0, prev, next, n, lies), p.family, OneUser(p.uid);
    DeltaRefinesFull(k0, prev, next, n, lies);
    ExactThrough(k0, prev, Everyone, p);
    ExactThrough(k0, prev, own, p);
    assert Concerns(Everyone, p) && Concerns(own, p);
    GlobalRuleInPlace(k0, prev, f);
    assert k.FilterOf(f) == k0.FilterOf(f) && WellKept(k);
    BetweenIsSafe(k0, k, prev, next, Everyone, p);
    BetweenIsSafe(k0, k, prev, next, own, p);
    if p.dst in Contents(next, Everyone, f) && p.dst !in Contents(prev, Everyone, f) {
      DeltaGlobalBeforeUsers(k0, prev, next, n, lies);
      StillThrough(k0, k, next, p);
    } else if !GlobalLoads(next, f) && p.dst in Contents(prev, Everyone, f) {
      DeltaStuck(k0, prev, next, f, n, lies);
      SameThrough(k0, k, Everyone, p);
    }
  }

  lemma StillThrough(k0: Kernel, k: Kernel, next: State, p: Packet)
    requires DropsThrough(k0, OneUser(p.uid), p) && k.FilterOf(p.family) == k0.FilterOf(p.family)
    requires RuleFor(Everyone, p.family) in k0.FilterOf(p.family).chain.value
    requires p.dst in Contents(next, Everyone, p.family)
    requires || Content(k, OneUser(p.uid), p.family) == Content(k0, OneUser(p.uid), p.family)
             || Refreshed(k, next, Everyone, p.family)
    ensures Held(k, next, p)
  {
    hide SetName, TmpName, NullAddr, Contents;
  }

  lemma HeldIsDropped(k: Kernel, state: State, p: Packet)
    requires WellKept(k) && Held(k, state, p)
    ensures Drops(k, p)
  {
    hide WellKept, Drops, DropsThrough;
    DropsThroughSome(k, p);
  }

  // Between the lines for a global set and those for the users, the block of such a packet is in neither.
  lemma SlipsThroughDelta(k0: Kernel, prev: State, next: State, lies: set<Family>, p: Packet)
    requires Exact(k0, prev) && prev.perUser.Keys == next.perUser.Keys && !Lasts(prev, next, p)
    ensures !Drops(DeltaPrefix(k0, prev, next, |GlobalSetDelta(prev, next, p.family)|, lies), p)
  {
    hide SetName, TmpName, NullAddr, Contents, ChainRules, RunSteps, DeltaSteps, GlobalSetDelta, AfterGlobalDelta,
         Exact, Drops, GlobalLoads;
    var f, own := p.family, OneUser(p.uid);
    var a, b := GlobalSetDelta(prev, next, f), AfterGlobalDelta(prev, next, f);
    DeltaSetParts(prev, next, f);
    RunStepsAppend(a, b, |a|, lies, k0);
    GlobalSetDeltaRun(k0, prev, next, f, |a|, lies);
    var (k1, ok1) := RunSteps(a, |a|, lies, k0);
    RunNone(b, lies, k1);
    assert Content(k1, own, f) == Content(k0, own, f) by {
      NamesInjective();
      GlobalSetDeltaMentions(prev, next, f, SetName(own, f));
      UnmentionedUntouched(a, |a|, lies, k0, SetName(own, f));
    }
    ExactThrough(k0, prev, own, p);
    forall t ensures !DropsThrough(k1, t, p) {
      if t == Everyone {
        assert Refreshed(k1, next, Everyone, f);
      } else if t == own {
        NotThrough(k0, k1, prev, t, p);
      }
    }
    DropsThroughSome(k1, p);
  }

  // A packet that the last applied state and the next one both block stays dropped through an Apply, wherever its
  // delta, its healing or its rebuild stops, exactly when the new global list blocks it, or the old list of its owner
  // did, or the new global list cannot be loaded. The global list is always changed first, so a block that moves from
  // it to the owner's is not in force in between.
  lemma ApplyStaysDroppedIff(m: Memory, state: State, p: Packet)
    requires InSync(m) && m.last.Some? && DistinctLists(state)
    requires Blocks(m.last.value, p) && Blocks(state, p)
    ensures (forall faults :: Drops(Applied(m, state, faults).0.kernel, p)) <==> Lasts(m.last.value, state, p)
  {
    hide Contents, Blocks, Drops, Applied, DistinctLists, Exact, Lasts;
    if Lasts(m.last.value, state, p) {
      forall faults ensures Drops(Applied(m, state, faults).0.kernel, p) {
        ApplyStaysDropped(m, state, faults, p);
      }
    } else {
      var faults := ApplySlipsThrough(m, state, p);
    }
  }

  lemma ApplyStaysDropped(m: Memory, state: State, faults: Faults, p: Packet)
    requires InSync(m) && m.last.Some? && Blocks(m.last.value, p) && Blocks(state, p)
    requires Lasts(m.last.value, state, p)
    ensures Drops(Applied(m, state, faults).0.kernel, p)
  {
    hide Contents, Blocks, Drops, Exact, Held, WellKept, RunSteps, DeltaSteps, FullSteps, Lasts;
    var prev := m.last.value;
    if TakesDelta(m, state) {
      var (k1, ok) := Updated(m, state, faults);
      DeltaHolds(m.kernel, prev, state, faults.update, faults.lies, p);
      HeldIsDropped(k1, state, p);
      HeldStaysDropped(k1, state, faults.rebuild, faults.lies, p);
    } else {
      StaysDropped(m.kernel, prev, state, faults.rebuild, faults.lies, p);
    }
  }

  lemma ApplySlipsThrough(m: Memory, state: State, p: Packet) returns (faults: Faults)
    requires InSync(m) && m.last.Some? && DistinctLists(state) && !Lasts(m.last.value, state, p)
    ensures !Drops(Applied(m, state, faults).0.kernel, p)
  {
    hide Contents, Drops, Exact, WellKept, RunSteps, DeltaSteps, FullSteps, DistinctLists, GlobalSetDelta, Lasts;
    var prev := m.last.value;
    if TakesDelta(m, state) {
      faults := Faults(|GlobalSetDelta(prev, state, p.family)|, 0, {});
      SlipsThroughDelta(m.kernel, prev, state, {}, p);
      RunNone(FullSteps(state, Uids(state)), {}, Updated(m, state, faults).0);
    } else {
      var n := SlipsThrough(m.kernel, prev, state, {}, p);
      faults := Faults(0, n, {});
    }
  }
}
