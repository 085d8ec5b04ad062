/** The full apply of the iptables backend, stopped anywhere: what holds after every prefix of its steps. */
module IptablesSafety {
  import opened Wrappers
  import opened Sorting
  import opened Backend
  import opened IpKernel
  import opened Iptables

  function SetSteps(lines: seq<Line>, exist: bool): seq<Step> {
    seq(|lines|, i requires 0 <= i < |lines| => SetLine(lines[i], exist))
  }

  // One ipset restore for all sets, then for each family one iptables-restore and the jump.
  function FullSteps(state: State, uids: seq<int>): seq<Step> {
    SetSteps(RefreshLines(state, uids), false)
    + [Restore(V4, ChainRules(uids, V4)), Hook(V4)] + [Restore(V6, ChainRules(uids, V6)), Hook(V6)]
  }

  // ---------- Reachable kernels ----------

  function TargetOf(r: Rule): Target {
    if r.owner.Some? then OneUser(r.owner.value) else Everyone
  }

  ghost predicate RuleKept(k: Kernel, r: Rule, f: Family) {
    r == RuleFor(TargetOf(r), f) && r.setName in k.sets
  }

  ghost predicate ChainKept(k: Kernel, f: Family) {
    var chain := k.FilterOf(f).chain;
    chain.Some? ==> forall i :: 0 <= i < |chain.value| ==> RuleKept(k, chain.value[i], f)
  }

  // No hash:ip set holds a null address.
  predicate Proper(s: IpSet, f: Family) {
    s.family == f && NullAddr(f) !in s.elements
  }

  ghost predicate Typed(k: Kernel) {
    forall t, f ::
      && (SetName(t, f) in k.sets ==> Proper(k.sets[SetName(t, f)], f))
      && (TmpName(t, f) in k.sets ==> Proper(k.sets[TmpName(t, f)], f))
  }

  // Our names have the right types, and WEBBLOCK holds rules of ours whose sets exist. Nothing is said about what the
  // sets hold: stale sets of former users and left-over temporaries are all allowed.
  ghost predicate WellKept(k: Kernel) {
    Typed(k) && ChainKept(k, V4) && ChainKept(k, V6)
  }

  function Content(k: Kernel, t: Target, f: Family): set<Addr> {
    if SetName(t, f) in k.sets then k.sets[SetName(t, f)].elements else {}
  }

  ghost predicate Refreshed(k: Kernel, state: State, t: Target, f: Family) {
    SetName(t, f) in k.sets && Content(k, t, f) == Contents(state, t, f)
  }

  ghost predicate OldOrNew(k0: Kernel, k: Kernel, state: State) {
    forall t, f ::
      && (SetName(t, f) in k0.sets ==> SetName(t, f) in k.sets)
      && (Content(k, t, f) == Content(k0, t, f) || (HasTarget(state, t) && Refreshed(k, state, t, f)))
  }

  // While the sets are being refreshed: the filters are as before, the lists already done hold the new contents.
  ghost predicate During(k0: Kernel, k: Kernel, state: State, done: set<(Target, Family)>) {
    && WellKept(k) && k.filter4 == k0.filter4 && k.filter6 == k0.filter6
    && OldOrNew(k0, k, state)
    && forall t, f :: (t, f) in done ==> Refreshed(k, state, t, f)
  }

  lemma NamesInjective()
    ensures forall t, f, t', f' :: SetName(t, f) == SetName(t', f') ==> t == t' && f == f'
    ensures forall t, f, t', f' :: TmpName(t, f) == TmpName(t', f') ==> t == t' && f == f'
    ensures forall t, f, t', f' :: SetName(t, f) != TmpName(t', f')
  {
    hide SetName, TmpName, NullAddr;
    forall t, f, t', f'
      ensures SetName(t, f) == SetName(t', f') ==> t == t' && f == f'
      ensures TmpName(t, f) == TmpName(t', f') ==> t == t' && f == f'
      ensures SetName(t, f) != TmpName(t', f')
    {
      SetNameInjective(t, f, t', f');
    }
  }

  lemma TmpNotInUse(k: Kernel, t: Target, f: Family)
    requires WellKept(k)
    ensures !InUse(k, TmpName(t, f))
  {
    hide SetName, TmpName, NullAddr;
    NamesInjective();
    forall g: Family ensures !References(k.FilterOf(g).chain, TmpName(t, f)) {
    }
    assert !References(k.FilterOf(V4).chain, TmpName(t, f)) && !References(k.FilterOf(V6).chain, TmpName(t, f));
  }

  lemma RunOneStep(s: Step, n: nat, lies: set<Family>, k: Kernel)
    ensures var r := RunSteps([s], n, lies, k);
            if n == 0 || ExecStep(s, lies, k).None? then r == (k, false) else r == (ExecStep(s, lies, k).value, true)
  {
    assert [s][1..] == [];
  }

  // ---------- One set ----------

  // Changing a temporary is invisible.
  lemma TmpInvisible(k0: Kernel, k: Kernel, state: State, done: set<(Target, Family)>, t: Target, f: Family,
                     s: set<Addr>)
    requires During(k0, k, state, done) && NullAddr(f) !in s
    ensures During(k0, WithSet(k, TmpName(t, f), IpSet(f, s)), state, done)
  {
    hide SetName, TmpName, NullAddr;
    NamesInjective();
  }

  // Creating a set that was missing changes no contents.
  lemma CreateInvisible(k0: Kernel, k: Kernel, state: State, done: set<(Target, Family)>, t: Target, f: Family)
    requires During(k0, k, state, done) && SetName(t, f) !in k.sets
    ensures During(k0, WithSet(k, SetName(t, f), IpSet(f, {})), state, done)
  {
    hide SetName, TmpName, NullAddr;
    NamesInjective();
  }

  lemma RunPrepare(k0: Kernel, k: Kernel, state: State, done: set<(Target, Family)>, t: Target, f: Family, n: nat,
                   lies: set<Family>)
    requires During(k0, k, state, done)
    ensures var lines := [Create(SetName(t, f), f), Create(TmpName(t, f), f), Flush(TmpName(t, f))];
            var (k', ok) := RunSteps(SetSteps(lines, false), n, lies, k);
            && During(k0, k', state, done)
            && (ok ==> SetName(t, f) in k'.sets && TmpName(t, f) in k'.sets && k'.sets[TmpName(t, f)].elements == {})
            && (n >= 3 ==> ok)
  {
    hide SetName, TmpName, NullAddr, During;
    var name, tmp := SetName(t, f), TmpName(t, f);
    var steps := SetSteps([Create(name, f), Create(tmp, f), Flush(tmp)], false);
    assert steps ==
           [SetLine(Create(name, f), false)] + ([SetLine(Create(tmp, f), false)] + [SetLine(Flush(tmp), false)]);
    var k1 := CreateSet(k0, k, state, done, t, f);
    var k2 := CreateTmp(k0, k1, state, done, t, f);
    TmpInvisible(k0, k2, state, done, t, f, {});
    var k3 := WithSet(k2, tmp, IpSet(f, {}));
    RunOneStep(steps[0], n, lies, k);
    RunStepsAppend([steps[0]], [steps[1]] + [steps[2]], n, lies, k);
    if n >= 1 {
      RunOneStep(steps[1], n - 1, lies, k1);
      RunStepsAppend([steps[1]], [steps[2]], n - 1, lies, k1);
    }
    if n >= 2 {
      RunOneStep(steps[2], n - 2, lies, k2);
    }
  }

  lemma CreateSet(k0: Kernel, k: Kernel, state: State, done: set<(Target, Family)>, t: Target,
                  f: Family) returns (k': Kernel)
    requires During(k0, k, state, done)
    ensures ExecLine(Create(SetName(t, f), f), false, k) == Some(k')
    ensures During(k0, k', state, done) && SetName(t, f) in k'.sets
  {
    hide SetName, TmpName, NullAddr;
    if SetName(t, f) in k.sets {
      return k;
    }
    CreateInvisible(k0, k, state, done, t, f);
    return WithSet(k, SetName(t, f), IpSet(f, {}));
  }

  lemma CreateTmp(k0: Kernel, k: Kernel, state: State, done: set<(Target, Family)>, t: Target,
                  f: Family) returns (k': Kernel)
    requires During(k0, k, state, done) && SetName(t, f) in k.sets
    ensures ExecLine(Create(TmpName(t, f), f), false, k) == Some(k')
    ensures During(k0, k', state, done) && SetName(t, f) in k'.sets
    ensures TmpName(t, f) in k'.sets && k'.sets[TmpName(t, f)].family == f
  {
    hide SetName, TmpName, NullAddr;
    if TmpName(t, f) in k.sets {
      return k;
    }
    TmpInvisible(k0, k, state, done, t, f, {});
    return WithSet(k, TmpName(t, f), IpSet(f, {}));
  }

  lemma {:induction false} RunAddLines(k0: Kernel, k: Kernel, state: State, done: set<(Target, Family)>, t: Target,
                                       f: Family,
                                       addrs: seq<Addr>, n: nat, lies: set<Family>)
    requires During(k0, k, state, done)
    requires SetName(t, f) in k.sets && TmpName(t, f) in k.sets && k.sets[TmpName(t, f)].elements == {}
    ensures var (k', ok) := RunSteps(SetSteps(AddLines(TmpName(t, f), addrs), false), n, lies, k);
            && During(k0, k', state, done)
            && (ok ==>
                  && SetName(t, f) in k'.sets && TmpName(t, f) in k'.sets
                  && k'.sets[TmpName(t, f)].elements == Elements(addrs))
            && (n >= |addrs| && Distinct(addrs) && NullAddr(f) !in addrs ==> ok)
    ensures |AddLines(TmpName(t, f), addrs)| == |addrs|
  {
    hide SetName, TmpName, NullAddr, During;
    var tmp := TmpName(t, f);
    if addrs == [] {
      assert Elements(addrs) == {};
      return;
    }
    var init, a := addrs[..|addrs| - 1], addrs[|addrs| - 1];
    assert addrs == init + [a];
    assert Elements(addrs) == Elements(init) + {a};
    RunAddLines(k0, k, state, done, t, f, init, n, lies);
    var (k1, ok1) := RunSteps(SetSteps(AddLines(tmp, init), false), n, lies, k);
    var last := SetLine(Add(tmp, a), false);
    assert SetSteps(AddLines(tmp, addrs), false) == SetSteps(AddLines(tmp, init), false) + [last];
    RunStepsAppend(SetSteps(AddLines(tmp, init), false), [last], n, lies, k);
    if ok1 {
      RunOneStep(last, n - |init|, lies, k1);
      TypedTmp(k0, k1, state, done, t, f);
      assert NullAddr(f) !in Elements(init);
      if a != NullAddr(f) {
        TmpInvisible(k0, k1, state, done, t, f, Elements(addrs));
      }
    }
  }

  lemma TypedTmp(k0: Kernel, k: Kernel, state: State, done: set<(Target, Family)>, t: Target, f: Family)
    requires During(k0, k, state, done)
    ensures TmpName(t, f) in k.sets ==> Proper(k.sets[TmpName(t, f)], f)
    ensures SetName(t, f) in k.sets ==> Proper(k.sets[SetName(t, f)], f)
  {
    hide SetName, TmpName, NullAddr;
  }

  // The moment the new contents go live.
  lemma SwapGoesLive(k0: Kernel, k: Kernel, state: State, done: set<(Target, Family)>, t: Target, f: Family)
    requires During(k0, k, state, done) && HasTarget(state, t)
    requires SetName(t, f) in k.sets && TmpName(t, f) in k.sets
    requires k.sets[TmpName(t, f)].elements == Contents(state, t, f)
    ensures var r := ExecLine(Swap(SetName(t, f), TmpName(t, f)), false, k);
            r.Some? && During(k0, r.value, state, done + {(t, f)}) && TmpName(t, f) in r.value.sets
  {
    hide SetName, TmpName, NullAddr, Contents;
    NamesInjective();
  }

  lemma DestroyInvisible(k0: Kernel, k: Kernel, state: State, done: set<(Target, Family)>, t: Target, f: Family)
    requires During(k0, k, state, done) && TmpName(t, f) in k.sets
    ensures var r := ExecLine(Destroy(TmpName(t, f)), false, k); r.Some? && During(k0, r.value, state, done)
  {
    hide SetName, TmpName, NullAddr, Contents;
    NamesInjective();
    TmpNotInUse(k, t, f);
  }

  // Refreshing one set, stopped anywhere.
  lemma RunSetRefresh(k0: Kernel, k: Kernel, state: State, done: set<(Target, Family)>, t: Target, f: Family, n: nat,
                      lies: set<Family>)
    requires During(k0, k, state, done) && HasTarget(state, t)
    ensures var lines := SetRefresh(t, f, ListOf(state, t, f));
            var (k', ok) := RunSteps(SetSteps(lines, false), n, lies, k);
            && During(k0, k', state, if ok then done + {(t, f)} else done)
            && (n >= |lines| && Distinct(ListOf(state, t, f)) && NullAddr(f) !in ListOf(state, t, f) ==> ok)
  {
    hide SetName, TmpName, NullAddr, During;
    var name, tmp, addrs := SetName(t, f), TmpName(t, f), ListOf(state, t, f);
    var prepare := SetSteps([Create(name, f), Create(tmp, f), Flush(tmp)], false);
    var fill := SetSteps(AddLines(tmp, addrs), false);
    var swap, destroy := SetLine(Swap(name, tmp), false), SetLine(Destroy(tmp), false);
    assert SetSteps(SetRefresh(t, f, addrs), false) == prepare + (fill + ([swap] + [destroy]));
    RunPrepare(k0, k, state, done, t, f, n, lies);
    RunStepsAppend(prepare, fill + ([swap] + [destroy]), n, lies, k);
    var (k1, ok1) := RunSteps(prepare, n, lies, k);
    if ok1 {
      RunAddLines(k0, k1, state, done, t, f, addrs, n - 3, lies);
      RunStepsAppend(fill, [swap] + [destroy], n - 3, lies, k1);
      var (k2, ok2) := RunSteps(fill, n - 3, lies, k1);
      if ok2 {
        RunSwap(k0, k2, state, done, t, f, n - 3 - |addrs|, lies);
      }
    }
  }

  lemma RunSwap(k0: Kernel, k: Kernel, state: State, done: set<(Target, Family)>, t: Target, f: Family, n: nat,
                lies: set<Family>)
    requires During(k0, k, state, done) && HasTarget(state, t)
    requires SetName(t, f) in k.sets && TmpName(t, f) in k.sets
    requires k.sets[TmpName(t, f)].elements == Contents(state, t, f)
    ensures var steps := [SetLine(Swap(SetName(t, f), TmpName(t, f)), false)]
              + [SetLine(Destroy(TmpName(t, f)), false)];
            var (k', ok) := RunSteps(steps, n, lies, k);
            && During(k0, k', state, if ok then done + {(t, f)} else done)
            && (n >= 2 ==> ok)
  {
    hide SetName, TmpName, NullAddr, During, Contents;
    var swap := SetLine(Swap(SetName(t, f), TmpName(t, f)), false);
    var destroy := SetLine(Destroy(TmpName(t, f)), false);
    SwapGoesLive(k0, k, state, done, t, f);
    RunOneStep(swap, n, lies, k);
    RunStepsAppend([swap], [destroy], n, lies, k);
    if n >= 1 {
      var k1 := ExecStep(swap, lies, k).value;
      DestroyInvisible(k0, k1, state, done + {(t, f)}, t, f);
      RunOneStep(destroy, n - 1, lies, k1);
      DuringLess(k0, k1, state, done, (t, f));
    }
  }

  lemma DuringLess(k0: Kernel, k: Kernel, state: State, done: set<(Target, Family)>, x: (Target, Family))
    requires During(k0, k, state, done + {x})
    ensures During(k0, k, state, done)
  {
    hide SetName, TmpName, NullAddr, Contents;
  }

  // ---------- All sets ----------

  lemma StepsOfConcat(a: seq<Line>, b: seq<Line>, exist: bool)
    ensures SetSteps(a + b, exist) == SetSteps(a, exist) + SetSteps(b, exist)
  {
  }

  function BothFamilies(t: Target): set<(Target, Family)> {
    {(t, V4), (t, V6)}
  }

  // The lists refreshed once the loop has passed these users.
  ghost function RefreshedBy(uids: seq<int>): set<(Target, Family)> {
    BothFamilies(Everyone) + (set uid | uid in uids :: (OneUser(uid), V4))
      + (set uid | uid in uids :: (OneUser(uid), V6))
  }

  predicate Holds(state: State, t: Target) {
    NullAddr(V4) !in ListOf(state, t, V4) && NullAddr(V6) !in ListOf(state, t, V6)
  }

  lemma HoldableHolds(state: State)
    ensures Holdable(state) <==> forall t :: Holds(state, t)
  {
    hide NullAddr, ListOf;
    forall t, f ensures NullAddr(f) !in Contents(state, t, f) <==> NullAddr(f) !in ListOf(state, t, f) {
    }
    if forall t :: Holds(state, t) {
      forall t, f ensures NullAddr(f) !in Contents(state, t, f) {
        assert Holds(state, t);
        assert f == V4 || f == V6;
      }
    }
  }

  lemma RunTargetRefresh(k0: Kernel, k: Kernel, state: State, done: set<(Target, Family)>, t: Target, n: nat,
                         lies: set<Family>)
    requires During(k0, k, state, done) && HasTarget(state, t)
    ensures var steps := SetSteps(TargetRefresh(state, t), false);
            var (k', ok) := RunSteps(steps, n, lies, k);
            && During(k0, k', state, if ok then done + BothFamilies(t) else done)
            && (n >= |steps| && DistinctLists(state) && Holds(state, t) ==> ok)
  {
    hide During, SetRefresh;
    var a, b := SetRefresh(t, V4, ListOf(state, t, V4)), SetRefresh(t, V6, ListOf(state, t, V6));
    StepsOfConcat(a, b, false);
    RunStepsAppend(SetSteps(a, false), SetSteps(b, false), n, lies, k);
    RunSetRefresh(k0, k, state, done, t, V4, n, lies);
    var (k1, ok1) := RunSteps(SetSteps(a, false), n, lies, k);
    if ok1 {
      RunSetRefresh(k0, k1, state, done + {(t, V4)}, t, V6, n - |a|, lies);
      assert done + {(t, V4)} + {(t, V6)} == done + BothFamilies(t);
      var (k2, ok2) := RunSteps(SetSteps(b, false), n - |a|, lies, k1);
      if !ok2 {
        DuringLess(k0, k2, state, done, (t, V4));
      }
    }
  }

  lemma RefreshedNext(uids: seq<int>, uid: int)
    ensures RefreshedBy(uids + [uid]) == RefreshedBy(uids) + BothFamilies(OneUser(uid))
  {
  }

  lemma LastRefresh(state: State, uids: seq<int>, uid: int)
    ensures SetSteps(Each(uids + [uid], UserRefresh(state)), false)
         == SetSteps(Each(uids, UserRefresh(state)), false) + SetSteps(TargetRefresh(state, OneUser(uid)), false)
  {
    hide TargetRefresh;
    assert (uids + [uid])[..|uids|] == uids;
    StepsOfConcat(Each(uids, UserRefresh(state)), TargetRefresh(state, OneUser(uid)), false);
  }

  lemma {:induction false} RunUserRefreshes(k0: Kernel, k: Kernel, state: State, uids: seq<int>, n: nat,
                                            lies: set<Family>)
    requires During(k0, k, state, BothFamilies(Everyone)) && Elements(uids) <= state.perUser.Keys
    ensures var steps := SetSteps(Each(uids, UserRefresh(state)), false);
            var (k', ok) := RunSteps(steps, n, lies, k);
            && During(k0, k', state, if ok then RefreshedBy(uids) else {})
            && (n >= |steps| && DistinctLists(state) && Holdable(state) ==> ok)
  {
    hide During, TargetRefresh;
    if uids == [] {
      assert RefreshedBy(uids) == BothFamilies(Everyone);
      return;
    }
    var init, uid := uids[..|uids| - 1], uids[|uids| - 1];
    assert uids == init + [uid];
    assert uid in Elements(uids) && Elements(init) <= Elements(uids);
    RunUserRefreshes(k0, k, state, init, n, lies);
    RunLastRefresh(k0, k, state, init, uid, n, lies);
  }

  lemma RunLastRefresh(k0: Kernel, k: Kernel, state: State, uids: seq<int>, uid: int, n: nat, lies: set<Family>)
    requires uid in state.perUser
    requires var steps := SetSteps(Each(uids, UserRefresh(state)), false);
             var (k', ok) := RunSteps(steps, n, lies, k);
             && During(k0, k', state, if ok then RefreshedBy(uids) else {})
             && (n >= |steps| && DistinctLists(state) && Holdable(state) ==> ok)
    ensures var steps := SetSteps(Each(uids + [uid], UserRefresh(state)), false);
            var (k', ok) := RunSteps(steps, n, lies, k);
            && During(k0, k', state, if ok then RefreshedBy(uids + [uid]) else {})
            && (n >= |steps| && DistinctLists(state) && Holdable(state) ==> ok)
  {
    hide During, TargetRefresh, Each, SetSteps, RefreshedBy, DistinctLists, Holdable, RunSteps, Holds;
    var a, b := SetSteps(Each(uids, UserRefresh(state)), false), SetSteps(TargetRefresh(state, OneUser(uid)), false);
    LastRefresh(state, uids, uid);
    HoldableHolds(state);
    RunStepsAppend(a, b, n, lies, k);
    var (k1, ok1) := RunSteps(a, n, lies, k);
    if ok1 {
      RunTargetRefresh(k0, k1, state, RefreshedBy(uids), OneUser(uid), n - |a|, lies);
      RefreshedNext(uids, uid);
      var (k2, ok2) := RunSteps(b, n - |a|, lies, k1);
      if !ok2 {
        DuringNone(k0, k2, state, RefreshedBy(uids));
      }
    }
  }

  lemma DuringNone(k0: Kernel, k: Kernel, state: State, done: set<(Target, Family)>)
    requires During(k0, k, state, done)
    ensures During(k0, k, state, {})
  {
    hide SetName, TmpName, NullAddr, Contents;
  }

  ghost predicate AllRefreshed(k: Kernel, state: State) {
    forall t, f :: HasTarget(state, t) ==> Refreshed(k, state, t, f)
  }

  lemma DuringStarts(k: Kernel, state: State)
    requires WellKept(k)
    ensures During(k, k, state, {})
  {
    hide SetName, TmpName, NullAddr, Contents;
  }

  // refreshAllSets, stopped anywhere.
  lemma RunRefresh(k0: Kernel, state: State, n: nat, lies: set<Family>)
    requires WellKept(k0)
    ensures var steps := SetSteps(RefreshLines(state, SortedInts(state.perUser.Keys)), false);
            var (k, ok) := RunSteps(steps, n, lies, k0);
            && During(k0, k, state, {}) && (ok ==> AllRefreshed(k, state))
            && (n >= |steps| && DistinctLists(state) && Holdable(state) ==> ok)
  {
    hide TargetRefresh, During, AllRefreshed, Each, SetSteps, RefreshedBy, DistinctLists, Holdable, RunSteps, Holds;
    var uids := SortedInts(state.perUser.Keys);
    DuringStarts(k0, state);
    HoldableHolds(state);
    var a, b := SetSteps(TargetRefresh(state, Everyone), false), SetSteps(Each(uids, UserRefresh(state)), false);
    StepsOfConcat(TargetRefresh(state, Everyone), Each(uids, UserRefresh(state)), false);
    RunStepsAppend(a, b, n, lies, k0);
    RunTargetRefresh(k0, k0, state, {}, Everyone, n, lies);
    var (k1, ok1) := RunSteps(a, n, lies, k0);
    if ok1 {
      assert {} + BothFamilies(Everyone) == BothFamilies(Everyone);
      RunUserRefreshes(k0, k1, state, uids, n - |a|, lies);
      var (k2, ok2) := RunSteps(b, n - |a|, lies, k1);
      if ok2 {
        DoneAll(k0, k2, state);
        DuringNone(k0, k2, state, RefreshedBy(uids));
      }
    }
  }

  lemma DoneAll(k0: Kernel, k: Kernel, state: State)
    requires During(k0, k, state, RefreshedBy(SortedInts(state.perUser.Keys)))
    ensures AllRefreshed(k, state)
  {
    hide SetName, TmpName, NullAddr, Contents, Refreshed;
    var uids := SortedInts(state.perUser.Keys);
    forall t, f | HasTarget(state, t) ensures Refreshed(k, state, t, f) {
      assert t.OneUser? ==> t.uid in Elements(uids);
      assert f == V4 || f == V6;
      assert (t, f) in RefreshedBy(uids);
    }
  }

  // ---------- The chains ----------

  lemma {:induction false} UserRulesAre(uids: seq<int>, f: Family)
    ensures |UserRules(uids, f)| == |uids|
    ensures forall i :: 0 <= i < |uids| ==> UserRules(uids, f)[i] == RuleFor(OneUser(uids[i]), f)
  {
    hide RuleFor;
    if uids != [] {
      UserRulesAre(uids[..|uids| - 1], f);
    }
  }

  // The rules of the chain are those of the state's targets.
  lemma ChainRulesAre(state: State, f: Family)
    ensures var rules := ChainRules(SortedInts(state.perUser.Keys), f);
            && (forall r :: r in rules ==> HasTarget(state, TargetOf(r)) && r == RuleFor(TargetOf(r), f))
            && (forall t :: HasTarget(state, t) ==> RuleFor(t, f) in rules)
  {
    hide SetName;
    var uids := SortedInts(state.perUser.Keys);
    var rules := ChainRules(uids, f);
    UserRulesAre(uids, f);
    forall r | r in rules ensures HasTarget(state, TargetOf(r)) && r == RuleFor(TargetOf(r), f) {
      var i :| 0 <= i < |rules| && rules[i] == r;
      if i > 0 {
        assert r == RuleFor(OneUser(uids[i - 1]), f);
        assert uids[i - 1] in Elements(uids);
      }
    }
    forall t | HasTarget(state, t) ensures RuleFor(t, f) in rules {
      if t.Everyone? {
        assert rules[0] == RuleFor(t, f);
      } else {
        assert t.uid in Elements(uids);
        var j :| 0 <= j < |uids| && uids[j] == t.uid;
        assert rules[j + 1] == RuleFor(t, f);
      }
    }
  }

  // For one family: still the old filter, or the new chain over sets that are all new, hooked if it was.
  ghost predicate FilterReached(k0: Kernel, k: Kernel, state: State, f: Family) {
    var old_, new_ := k0.FilterOf(f), k.FilterOf(f);
    || new_ == old_
    || (&& new_.chain == Some(ChainRules(SortedInts(state.perUser.Keys), f)) && AllRefreshed(k, state)
        && (Jump in old_.output ==> Jump in new_.output))
  }

  // How far a full apply for the state may have come from k0.
  ghost predicate Reached(k0: Kernel, k: Kernel, state: State) {
    WellKept(k) && OldOrNew(k0, k, state) && FilterReached(k0, k, state, V4) && FilterReached(k0, k, state, V6)
  }

  // The family is completely done.
  ghost predicate FilterDone(k: Kernel, state: State, f: Family) {
    && k.FilterOf(f).chain == Some(ChainRules(SortedInts(state.perUser.Keys), f))
    && Jump in k.FilterOf(f).output
  }

  // The kernel means exactly the state.
  ghost predicate Exact(k: Kernel, state: State) {
    WellKept(k) && AllRefreshed(k, state) && FilterDone(k, state, V4) && FilterDone(k, state, V6)
  }

  // What the sets hold, they can hold.
  lemma ExactIsHoldable(k: Kernel, state: State)
    requires Exact(k, state)
    ensures Holdable(state)
  {
    hide SetName, TmpName, NullAddr, ChainRules;
    forall t, f ensures NullAddr(f) !in Contents(state, t, f) {
      if HasTarget(state, t) {
        assert Refreshed(k, state, t, f);
      }
    }
  }

  lemma RulesAcceptedIff(k: Kernel, state: State, f: Family)
    requires AllRefreshed(k, state)
    ensures RulesAccepted(k, ChainRules(SortedInts(state.perUser.Keys), f)) <==> OwnersInRange(state)
  {
    hide SetName;
    ChainRulesAre(state, f);
    var rules := ChainRules(SortedInts(state.perUser.Keys), f);
    forall i | 0 <= i < |rules| ensures rules[i].setName in k.sets {
      assert rules[i] in rules && HasTarget(state, TargetOf(rules[i]));
      assert Refreshed(k, state, TargetOf(rules[i]), f);
    }
    if RulesAccepted(k, rules) {
      forall uid | uid in state.perUser ensures 0 <= uid < 0xFFFF_FFFF {
        assert HasTarget(state, OneUser(uid));
        var i :| 0 <= i < |rules| && rules[i] == RuleFor(OneUser(uid), f);
        assert rules[i].owner.value == uid;
      }
    }
    if OwnersInRange(state) {
      forall i | 0 <= i < |rules| && rules[i].owner.Some? ensures 0 <= rules[i].owner.value < 0xFFFF_FFFF {
        assert rules[i] in rules && HasTarget(state, TargetOf(rules[i]));
      }
    }
  }

  // rebuildChain for one family, stopped anywhere.
  lemma RunChain(k0: Kernel, k: Kernel, state: State, f: Family, n: nat, lies: set<Family>)
    requires Reached(k0, k, state) && AllRefreshed(k, state) && k.FilterOf(f) == k0.FilterOf(f)
    ensures var steps := [Restore(f, ChainRules(SortedInts(state.perUser.Keys), f)), Hook(f)];
            var (k', ok) := RunSteps(steps, n, lies, k);
            && Reached(k0, k', state) && AllRefreshed(k', state)
            && (forall g :: g != f ==> k'.FilterOf(g) == k.FilterOf(g))
            && (ok ==> FilterDone(k', state, f) && OwnersInRange(state))
            && (n >= 2 && OwnersInRange(state) ==> ok)
  {
    hide SetName, TmpName, NullAddr, Contents, ChainRules;
    var rules := ChainRules(SortedInts(state.perUser.Keys), f);
    var steps := [Restore(f, rules), Hook(f)];
    assert steps[1..] == [Hook(f)];
    RulesAcceptedIff(k, state, f);
    if n >= 1 && RulesAccepted(k, rules) {
      var k1 := ExecStep(steps[0], lies, k).value;
      RestoreKeeps(k0, k, state, f);
      RunOneStep(Hook(f), n - 1, lies, k1);
      HookKeeps(k0, k1, state, f, lies);
    }
  }

  lemma RestoreKeeps(k0: Kernel, k: Kernel, state: State, f: Family)
    requires Reached(k0, k, state) && AllRefreshed(k, state) && k.FilterOf(f) == k0.FilterOf(f)
    ensures var rules := ChainRules(SortedInts(state.perUser.Keys), f);
            var k1 := k.WithFilter(f, k.FilterOf(f).(chain := Some(rules)));
            Reached(k0, k1, state) && AllRefreshed(k1, state)
  {
    hide SetName, TmpName, NullAddr, Contents, ChainRules;
    ChainRulesAre(state, f);
    var rules := ChainRules(SortedInts(state.perUser.Keys), f);
    var k1 := k.WithFilter(f, k.FilterOf(f).(chain := Some(rules)));
    assert AllRefreshed(k1, state) by {
      forall t, g | HasTarget(state, t) ensures Refreshed(k1, state, t, g) { assert Refreshed(k, state, t, g); }
    }
    forall i | 0 <= i < |rules| ensures RuleKept(k1, rules[i], f) {
      assert rules[i] in rules && HasTarget(state, TargetOf(rules[i]));
      assert Refreshed(k1, state, TargetOf(rules[i]), f);
    }
    assert WellKept(k1);
  }

  lemma HookKeeps(k0: Kernel, k: Kernel, state: State, f: Family, lies: set<Family>)
    requires Reached(k0, k, state) && AllRefreshed(k, state)
    requires k.FilterOf(f).chain == Some(ChainRules(SortedInts(state.perUser.Keys), f))
    ensures var r := ExecStep(Hook(f), lies, k);
            && r.Some? && Reached(k0, r.value, state) && AllRefreshed(r.value, state) && FilterDone(r.value, state, f)
            && (forall g :: g != f ==> r.value.FilterOf(g) == k.FilterOf(g))
  {
    hide SetName, TmpName, NullAddr, Contents, ChainRules;
    var k1 := ExecStep(Hook(f), lies, k).value;
    assert AllRefreshed(k1, state) by {
      forall t, g | HasTarget(state, t) ensures Refreshed(k1, state, t, g) { assert Refreshed(k, state, t, g); }
    }
    assert WellKept(k1);
    assert FilterReached(k0, k1, state, f);
  }

  // ---------- The full apply ----------

  // From any reachable kernel, a full apply stopped after any number of steps has reached only harmless kernels; run to
  // the end it makes the kernel exact, and on lists without repetitions it fails by itself exactly when some list holds
  // the null address of its family or some uid is out of range.
  lemma FullApplyReaches(k0: Kernel, state: State, n: nat, lies: set<Family>)
    requires WellKept(k0)
    ensures var steps := FullSteps(state, SortedInts(state.perUser.Keys));
            var (k, ok) := RunSteps(steps, n, lies, k0);
            && Reached(k0, k, state)
            && (ok ==> Exact(k, state) && Loadable(IptablesIpset, state))
            && (n >= |steps| && DistinctLists(state) ==> (ok <==> Loadable(IptablesIpset, state)))
  {
    hide SetName, TmpName, NullAddr, Contents, ChainRules, RefreshLines, Holdable;
    var uids := SortedInts(state.perUser.Keys);
    var sets := SetSteps(RefreshLines(state, uids), false);
    var c4, c6 := [Restore(V4, ChainRules(uids, V4)), Hook(V4)], [Restore(V6, ChainRules(uids, V6)), Hook(V6)];
    RunStepsAppend(sets + c4, c6, n, lies, k0);
    RunStepsAppend(sets, c4, n, lies, k0);
    RunRefresh(k0, state, n, lies);
    var (k1, ok1) := RunSteps(sets, n, lies, k0);
    assert Reached(k0, k1, state);
    if ok1 {
      RunChain(k0, k1, state, V4, n - |sets|, lies);
      var (k2, ok2) := RunSteps(c4, n - |sets|, lies, k1);
      if ok2 && n >= |sets + c4| {
        RunChain(k0, k2, state, V6, n - |sets + c4|, lies);
        var (k3, ok3) := RunSteps(c6, n - |sets + c4|, lies, k2);
        if ok3 {
          ExactIsHoldable(k3, state);
        }
      }
    }
  }
}
