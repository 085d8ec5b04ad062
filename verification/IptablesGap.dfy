/** How far the iptables full apply is from atomic: exactly which packets can slip through in the middle of it. */
module IptablesGap {
  import opened Wrappers
  import opened Sorting
  import opened Backend
  import opened IpKernel
  import opened Iptables
  import opened IptablesSafety
  import opened IptablesMeaning

  ghost function FullPrefix(k0: Kernel, state: State, n: nat, lies: set<Family>): Kernel {
    RunSteps(FullSteps(state, SortedInts(state.perUser.Keys)), n, lies, k0).0
  }

  function AfterGlobal(state: State, uids: seq<int>): seq<Step> {
    SetSteps(Each(uids, UserRefresh(state)), false)
    + [Restore(V4, ChainRules(uids, V4)), Hook(V4)] + [Restore(V6, ChainRules(uids, V6)), Hook(V6)]
  }

  lemma GlobalComesFirst(state: State, uids: seq<int>)
    ensures FullSteps(state, uids) == SetSteps(TargetRefresh(state, Everyone), false) + AfterGlobal(state, uids)
  {
    hide TargetRefresh, ChainRules, Each;
    StepsOfConcat(TargetRefresh(state, Everyone), Each(uids, UserRefresh(state)), false);
  }

  lemma AfterGlobalSilent(state: State, uids: seq<int>, f: Family)
    ensures Silent(AfterGlobal(state, uids), SetName(Everyone, f))
  {
    hide SetName, TmpName, NullAddr, ChainRules, TargetRefresh, SetSteps, Each;
    NamesInjective();
    UserRefreshesMention(state, uids, SetName(Everyone, f));
  }

  // The global list is refreshed before any user's list changes, and stays so.
  lemma GlobalBeforeUsers(k0: Kernel, state: State, n: nat, lies: set<Family>)
    requires WellKept(k0)
    ensures var k := FullPrefix(k0, state, n, lies);
            || (forall uid, f :: Content(k, OneUser(uid), f) == Content(k0, OneUser(uid), f))
            || (forall f :: Refreshed(k, state, Everyone, f))
  {
    hide SetName, TmpName, NullAddr, Contents, TargetRefresh, AfterGlobal, During, RunSteps, FullSteps;
    var uids := SortedInts(state.perUser.Keys);
    var a, b := SetSteps(TargetRefresh(state, Everyone), false), AfterGlobal(state, uids);
    GlobalComesFirst(state, uids);
    RunStepsAppend(a, b, n, lies, k0);
    var (k1, ok1) := RunSteps(a, n, lies, k0);
    forall uid, f ensures Content(k1, OneUser(uid), f) == Content(k0, OneUser(uid), f) {
      RefreshingOneList(state, Everyone, n, lies, k0, OneUser(uid), f);
    }
    if ok1 {
      GlobalRefreshed(k0, state, n, lies);
      forall f ensures Refreshed(FullPrefix(k0, state, n, lies), state, Everyone, f) {
        AfterGlobalSilent(state, uids, f);
        assert Refreshed(k1, state, Everyone, f);
        UnmentionedUntouched(b, n - |a|, lies, k1, SetName(Everyone, f));
      }
    }
  }

  lemma GlobalRefreshed(k0: Kernel, state: State, n: nat, lies: set<Family>)
    requires WellKept(k0)
    ensures var (k1, ok1) := RunSteps(SetSteps(TargetRefresh(state, Everyone), false), n, lies, k0);
            && (ok1 ==> forall f :: Refreshed(k1, state, Everyone, f))
            && k1.filter4 == k0.filter4 && k1.filter6 == k0.filter6 && WellKept(k1)
            && (DistinctLists(state) && Holds(state, Everyone) && n >= |SetSteps(TargetRefresh(state, Everyone), false)|
                ==> ok1)
  {
    hide SetName, TmpName, NullAddr, Contents, TargetRefresh, RunSteps, Refreshed, Holds;
    DuringStarts(k0, state);
    RunTargetRefresh(k0, k0, state, {}, Everyone, n, lies);
    var (k1, ok1) := RunSteps(SetSteps(TargetRefresh(state, Everyone), false), n, lies, k0);
    if ok1 {
      forall f ensures Refreshed(k1, state, Everyone, f) {
        assert f == V4 || f == V6;
        assert (Everyone, f) in {} + BothFamilies(Everyone);
      }
    }
  }

  // ---------- A global list that cannot be loaded ----------

  // The refresh of the global set of a family, and of the one before it, is not refused: no null address is in the way.
  predicate GlobalLoads(state: State, f: Family) {
    && NullAddr(V4) !in Contents(state, Everyone, V4)
    && (f == V6 ==> NullAddr(V6) !in Contents(state, Everyone, V6))
  }

  // The steps up to and with the refresh of one global set.
  function GlobalSteps(state: State, f: Family): seq<Step> {
    SetSteps(if f == V4 then SetRefresh(Everyone, V4, ListOf(state, Everyone, V4)) else TargetRefresh(state, Everyone),
             false)
  }

  function AfterGlobalSet(state: State, uids: seq<int>, f: Family): seq<Step> {
    (if f == V4 then SetSteps(SetRefresh(Everyone, V6, ListOf(state, Everyone, V6)), false) else [])
    + AfterGlobal(state, uids)
  }

  lemma GlobalSetComesFirst(state: State, uids: seq<int>, f: Family)
    ensures FullSteps(state, uids) == GlobalSteps(state, f) + AfterGlobalSet(state, uids, f)
  {
    hide SetRefresh, ChainRules, Each, AfterGlobal, FullSteps;
    GlobalComesFirst(state, uids);
    if f == V4 {
      StepsOfConcat(SetRefresh(Everyone, V4, ListOf(state, Everyone, V4)),
                    SetRefresh(Everyone, V6, ListOf(state, Everyone, V6)), false);
    }
  }

  lemma GlobalStepsRun(k0: Kernel, state: State, f: Family, n: nat, lies: set<Family>)
    requires WellKept(k0)
    ensures var (k, ok) := RunSteps(GlobalSteps(state, f), n, lies, k0);
            && During(k0, k, state, {})
            && (ok ==> Refreshed(k, state, Everyone, f))
            && (DistinctLists(state) && GlobalLoads(state, f) && n >= |GlobalSteps(state, f)| ==> ok)
  {
    hide SetName, TmpName, NullAddr, SetRefresh, RunSteps, Refreshed, WellKept;
    DuringStarts(k0, state);
    var (k, ok) := RunSteps(GlobalSteps(state, f), n, lies, k0);
    if f == V4 {
      RunSetRefresh(k0, k0, state, {}, Everyone, V4, n, lies);
      assert ok ==> (Everyone, V4) in {} + {(Everyone, V4)};
      if ok {
        DuringNone(k0, k, state, {} + {(Everyone, V4)});
      }
    } else {
      RunTargetRefresh(k0, k0, state, {}, Everyone, n, lies);
      assert ok ==> (Everyone, V6) in {} + BothFamilies(Everyone);
      if ok {
        DuringNone(k0, k, state, {} + BothFamilies(Everyone));
      }
    }
  }

  lemma GlobalStepsMention(state: State, f: Family, name: string)
    requires forall g :: name != SetName(Everyone, g) && name != TmpName(Everyone, g)
    ensures Silent(GlobalSteps(state, f), name)
  {
    hide SetName, TmpName, NullAddr, SetRefresh, Mentions;
    if f == V4 {
      RefreshMentions(Everyone, V4, ListOf(state, Everyone, V4), name);
    } else {
      TargetRefreshMentions(state, Everyone, name);
    }
  }

  lemma NeverRefreshed(k: Kernel, state: State, t: Target, f: Family)
    requires WellKept(k) && NullAddr(f) in Contents(state, t, f)
    ensures !Refreshed(k, state, t, f)
  {
    hide SetName, TmpName, NullAddr, Contents;
  }

  // With a null address in the way, a full apply never gets past the global set: it and the chain stay as they were.
  lemma GlobalStuck(k0: Kernel, state: State, f: Family, n: nat, lies: set<Family>)
    requires WellKept(k0) && !GlobalLoads(state, f)
    ensures var k := FullPrefix(k0, state, n, lies);
            && k.filter4 == k0.filter4 && k.filter6 == k0.filter6
            && Content(k, Everyone, f) == Content(k0, Everyone, f)
  {
    hide SetName, TmpName, NullAddr, Contents, RunSteps, WellKept, GlobalSteps, AfterGlobalSet, Refreshed, FullSteps;
    var g := if NullAddr(V4) in Contents(state, Everyone, V4) then V4 else V6;
    var uids := SortedInts(state.perUser.Keys);
    GlobalSetComesFirst(state, uids, g);
    RunStepsAppend(GlobalSteps(state, g), AfterGlobalSet(state, uids, g), n, lies, k0);
    GlobalStepsRun(k0, state, g, n, lies);
    var (k, ok) := RunSteps(GlobalSteps(state, g), n, lies, k0);
    NeverRefreshed(k, state, Everyone, g);
    assert !ok;
    if g != f {
      OtherFamilyUntouched(k0, state, n, lies);
    }
  }

  lemma OtherFamilyUntouched(k0: Kernel, state: State, n: nat, lies: set<Family>)
    ensures Content(RunSteps(GlobalSteps(state, V4), n, lies, k0).0, Everyone, V6) == Content(k0, Everyone, V6)
  {
    hide SetName, TmpName, NullAddr, RunSteps, SetRefresh, SetSteps, Silent;
    NamesInjective();
    RefreshMentions(Everyone, V4, ListOf(state, Everyone, V4), SetName(Everyone, V6));
    UnmentionedUntouched(GlobalSteps(state, V4), n, lies, k0, SetName(Everyone, V6));
  }

  predicate Lasts(prev: State, state: State, p: Packet) {
    || p.dst in Contents(state, Everyone, p.family)
    || p.dst in Contents(prev, OneUser(p.uid), p.family)
    || !GlobalLoads(state, p.family)
  }

  // A packet that both states block is dropped throughout the full apply exactly when the new global list blocks it,
  // or the old list of its owner did, or the new global list cannot be loaded. Otherwise its block is moving from the
  // global list to the owner's, and between the two refreshes it passes: the apply is not atomic.
  lemma StaysDroppedIff(k0: Kernel, prev: State, state: State, lies: set<Family>, p: Packet)
    requires Exact(k0, prev) && DistinctLists(state) && Blocks(prev, p) && Blocks(state, p)
    ensures (forall n: nat :: Drops(FullPrefix(k0, state, n, lies), p))
       <==> Lasts(prev, state, p)
  {
    hide Contents, FullPrefix, Drops, Exact, DistinctLists, GlobalLoads;
    if Lasts(prev, state, p) {
      forall n: nat ensures Drops(FullPrefix(k0, state, n, lies), p) {
        StaysDropped(k0, prev, state, n, lies, p);
      }
    } else {
      var n := SlipsThrough(k0, prev, state, lies, p);
    }
  }

  lemma StaysDropped(k0: Kernel, prev: State, state: State, n: nat, lies: set<Family>, p: Packet)
    requires Exact(k0, prev) && Blocks(prev, p) && Blocks(state, p)
    requires Lasts(prev, state, p)
    ensures Drops(FullPrefix(k0, state, n, lies), p)
  {
    hide Exact, Held, FullPrefix, Drops;
    ExactHolds(k0, prev, state, p);
    assert WellKept(k0) by { ExactIsKept(k0, prev); }
    HeldStaysDropped(k0, state, n, lies, p);
  }

  lemma ExactIsKept(k: Kernel, state: State)
    requires Exact(k, state)
    ensures WellKept(k)
  {
  }

  // The packet is dropped through a list whose new contents keep it blocked, or through its owner's list while the
  // global one, whose rule is in place, is about to block it, or through a global list that is not going to change.
  ghost predicate Held(k: Kernel, state: State, p: Packet) {
    var f, own := p.family, OneUser(p.uid);
    || (DropsThrough(k, Everyone, p) && p.dst in Contents(state, Everyone, f))
    || (DropsThrough(k, own, p) && p.dst in Contents(state, own, f))
    || (DropsThrough(k, own, p) && p.dst in Contents(state, Everyone, f)
          && RuleFor(Everyone, f) in k.FilterOf(f).chain.value)
    || (DropsThrough(k, Everyone, p) && !GlobalLoads(state, f))
  }

  lemma ExactHolds(k0: Kernel, prev: State, state: State, p: Packet)
    requires Exact(k0, prev) && Blocks(prev, p) && Blocks(state, p)
    requires Lasts(prev, state, p)
    ensures Held(k0, state, p)
  {
    hide SetName, TmpName, NullAddr, Contents, ChainRules, DropsThrough;
    ExactThrough(k0, prev, Everyone, p);
    ExactThrough(k0, prev, OneUser(p.uid), p);
    assert Concerns(Everyone, p) && Concerns(OneUser(p.uid), p);
    GlobalRuleInPlace(k0, prev, p.family);
  }

  lemma GlobalRuleInPlace(k: Kernel, state: State, f: Family)
    requires Exact(k, state)
    ensures Jump in k.FilterOf(f).output && k.FilterOf(f).chain.Some?
    ensures RuleFor(Everyone, f) in k.FilterOf(f).chain.value
  {
    hide SetName, TmpName, NullAddr, Contents, ChainRules;
    assert FilterDone(k, state, f);
    RuleInChain(state, Everyone, f);
  }

  lemma HeldStaysDropped(k0: Kernel, state: State, n: nat, lies: set<Family>, p: Packet)
    requires WellKept(k0) && Held(k0, state, p)
    ensures Drops(FullPrefix(k0, state, n, lies), p)
  {
    hide SetName, TmpName, NullAddr, Contents, ChainRules, FullSteps, RunSteps, WellKept, DropsThrough, Drops, Reached,
         Refreshed, Content, GlobalLoads;
    var f, k, own := p.family, FullPrefix(k0, state, n, lies), OneUser(p.uid);
    FullApplyReaches(k0, state, n, lies);
    ReachedIsSafe(k0, k, state, p);
    if DropsThrough(k0, Everyone, p) && !GlobalLoads(state, f) {
      GlobalStuck(k0, state, f, n, lies);
      SameThrough(k0, k, Everyone, p);
      assert WellKept(k) by { ReachedKept(k0, k, state); }
      DropsThroughSome(k, p);
    } else if !(DropsThrough(k0, Everyone, p) && p.dst in Contents(state, Everyone, f))
       && !(DropsThrough(k0, own, p) && p.dst in Contents(state, own, f)) {
      GlobalBeforeUsers(k0, state, n, lies);
      MovedToGlobal(k0, k, state, p);
    }
  }

  lemma SameThrough(k0: Kernel, k: Kernel, t: Target, p: Packet)
    requires DropsThrough(k0, t, p) && k.FilterOf(p.family) == k0.FilterOf(p.family)
    requires Content(k0, t, p.family) <= Content(k, t, p.family)
    ensures DropsThrough(k, t, p)
  {
    hide SetName, Content;
  }

  // A block moving from the owner's list to the global one is always in force through one of them.
  lemma MovedToGlobal(k0: Kernel, k: Kernel, state: State, p: Packet)
    requires Reached(k0, k, state)
    requires DropsThrough(k0, OneUser(p.uid), p) && p.dst in Contents(state, Everyone, p.family)
    requires RuleFor(Everyone, p.family) in k0.FilterOf(p.family).chain.value
    requires || Content(k, OneUser(p.uid), p.family) == Content(k0, OneUser(p.uid), p.family)
             || Refreshed(k, state, Everyone, p.family)
    ensures Drops(k, p)
  {
    hide SetName, TmpName, NullAddr, Contents, ChainRules;
    var f := p.family;
    ReachedKept(k0, k, state);
    assert FilterReached(k0, k, state, f);
    RuleInChain(state, Everyone, f);
    if k.FilterOf(f) != k0.FilterOf(f) {
      assert Refreshed(k, state, Everyone, f);
      assert DropsThrough(k, Everyone, p);
    } else if Refreshed(k, state, Everyone, f) {
      assert DropsThrough(k, Everyone, p);
    } else {
      assert DropsThrough(k, OneUser(p.uid), p);
    }
    DropsThroughSome(k, p);
  }

  // The gap: once the global set is refreshed and before the owner's is.
  lemma SlipsThrough(k0: Kernel, prev: State, state: State, lies: set<Family>, p: Packet) returns (n: nat)
    requires Exact(k0, prev) && DistinctLists(state) && !Lasts(prev, state, p)
    ensures !Drops(FullPrefix(k0, state, n, lies), p)
  {
    hide SetName, TmpName, NullAddr, Contents, ChainRules, RunSteps, DistinctLists, GlobalSteps, AfterGlobalSet,
         FullSteps, GlobalLoads;
    var f, own, uids := p.family, OneUser(p.uid), SortedInts(state.perUser.Keys);
    var a := GlobalSteps(state, f);
    n := |a|;
    GlobalSetComesFirst(state, uids, f);
    RunStepsAppend(a, AfterGlobalSet(state, uids, f), n, lies, k0);
    GlobalStepsRun(k0, state, f, n, lies);
    var (k1, ok1) := RunSteps(a, n, lies, k0);
    RunNone(AfterGlobalSet(state, uids, f), lies, k1);
    assert Content(k1, own, f) == Content(k0, own, f) by {
      NamesInjective();
      GlobalStepsMention(state, f, SetName(own, f));
      UnmentionedUntouched(a, n, lies, k0, SetName(own, f));
    }
    ExactThrough(k0, prev, own, p);
    forall t ensures !DropsThrough(k1, t, p) {
      if t == Everyone {
        assert Refreshed(k1, state, Everyone, f);
      } else if t == own {
        NotThrough(k0, k1, prev, t, p);
      }
    }
    DropsThroughSome(k1, p);
  }

  lemma NotThrough(k0: Kernel, k1: Kernel, prev: State, t: Target, p: Packet)
    requires Exact(k0, prev) && !DropsThrough(k0, t, p)
    requires k1.FilterOf(p.family) == k0.FilterOf(p.family) && Content(k1, t, p.family) == Content(k0, t, p.family)
    ensures !DropsThrough(k1, t, p)
  {
    hide SetName, TmpName, NullAddr, Contents, ChainRules;
  }

  lemma RunNone(steps: seq<Step>, lies: set<Family>, k: Kernel)
    ensures RunSteps(steps, 0, lies, k).0 == k
  {
  }
}
