/** The incremental path of the iptables backend, stopped anywhere. */
module IptablesDelta {
  import opened Wrappers
  import opened Sorting
  import opened Backend
  import opened Diff
  import opened IpKernel
  import opened Iptables
  import opened IptablesSafety
  import opened IptablesMeaning

  // Some sets already hold the next state's addresses, the others still those of the previous one.
  ghost predicate Mixed(k0: Kernel, k: Kernel, prev: State, next: State, done: set<(Target, Family)>) {
    && WellKept(k) && k.filter4 == k0.filter4 && k.filter6 == k0.filter6
    && forall t, f :: HasTarget(next, t) ==>
                        && SetName(t, f) in k.sets
                        && Content(k, t, f) == Contents(if (t, f) in done then next else prev, t, f)
  }

  // In the middle of an update: every set holds all that both states block and nothing that neither blocks.
  ghost predicate Between(k0: Kernel, k: Kernel, prev: State, next: State) {
    && WellKept(k) && k.filter4 == k0.filter4 && k.filter6 == k0.filter6
    && forall t, f :: HasTarget(next, t) ==>
                        && SetName(t, f) in k.sets
                        && Contents(prev, t, f) * Contents(next, t, f) <= Content(k, t, f)
                              <= Contents(prev, t, f) + Contents(next, t, f)
  }

  lemma MixedIsBetween(k0: Kernel, k: Kernel, prev: State, next: State, done: set<(Target, Family)>)
    requires Mixed(k0, k, prev, next, done)
    ensures Between(k0, k, prev, next)
  {
    hide SetName, TmpName, NullAddr, Contents;
  }

  function WithElements(k: Kernel, name: string, elements: set<Addr>): Kernel
    requires name in k.sets
  {
    WithSet(k, name, k.sets[name].(elements := elements))
  }

  // Adding with -exist only fails by itself on the null address; stopped early it has added a part.
  lemma {:induction false} RunAdds(k: Kernel, name: string, addrs: seq<Addr>, n: nat,
                                   lies: set<Family>) returns (e: set<Addr>)
    requires name in k.sets && NullAddr(k.sets[name].family) !in k.sets[name].elements
    ensures var steps := SetSteps(AddLines(name, addrs), true);
            var ok := n >= |addrs| && NullAddr(k.sets[name].family) !in addrs;
            && |steps| == |addrs| && RunSteps(steps, n, lies, k) == (WithElements(k, name, e), ok)
            && (ok ==> e == k.sets[name].elements + Elements(addrs))
    ensures k.sets[name].elements <= e <= k.sets[name].elements + Elements(addrs)
    ensures NullAddr(k.sets[name].family) !in e
  {
    hide NullAddr;
    if addrs == [] {
      assert WithElements(k, name, k.sets[name].elements).sets == k.sets;
      return k.sets[name].elements;
    }
    var init, a := addrs[..|addrs| - 1], addrs[|addrs| - 1];
    assert addrs == init + [a];
    assert Elements(addrs) == Elements(init) + {a};
    e := RunAdds(k, name, init, n, lies);
    StepsOfConcat(AddLines(name, init), [Add(name, a)], true);
    var last := SetLine(Add(name, a), true);
    assert SetSteps([Add(name, a)], true) == [last];
    RunStepsAppend(SetSteps(AddLines(name, init), true), [last], n, lies, k);
    if n >= |init| && NullAddr(k.sets[name].family) !in init {
      var k1 := WithElements(k, name, e);
      RunOneStep(last, n - |init|, lies, k1);
      if n >= |addrs| && a != NullAddr(k.sets[name].family) {
        assert WithElements(k1, name, e + {a}).sets == WithElements(k, name, e + {a}).sets;
        e := e + {a};
      }
    }
  }

  lemma {:induction false} RunDels(k: Kernel, name: string, addrs: seq<Addr>, n: nat,
                                   lies: set<Family>) returns (e: set<Addr>)
    requires name in k.sets && NullAddr(k.sets[name].family) !in addrs
    ensures var steps := SetSteps(DelLines(name, addrs), true);
            |steps| == |addrs| && RunSteps(steps, n, lies, k) == (WithElements(k, name, e), n >= |addrs|)
    ensures k.sets[name].elements - Elements(addrs) <= e <= k.sets[name].elements
    ensures n >= |addrs| ==> e == k.sets[name].elements - Elements(addrs)
  {
    hide NullAddr;
    if addrs == [] {
      assert WithElements(k, name, k.sets[name].elements).sets == k.sets;
      return k.sets[name].elements;
    }
    var init, a := addrs[..|addrs| - 1], addrs[|addrs| - 1];
    assert addrs == init + [a];
    assert Elements(addrs) == Elements(init) + {a};
    e := RunDels(k, name, init, n, lies);
    StepsOfConcat(DelLines(name, init), [Del(name, a)], true);
    var last := SetLine(Del(name, a), true);
    assert SetSteps([Del(name, a)], true) == [last];
    RunStepsAppend(SetSteps(DelLines(name, init), true), [last], n, lies, k);
    if n >= |init| {
      var k1 := WithElements(k, name, e);
      RunOneStep(last, n - |init|, lies, k1);
      if n >= |addrs| {
        assert WithElements(k1, name, e - {a}).sets == WithElements(k, name, e - {a}).sets;
        e := e - {a};
      }
    }
  }

  // The update of one set: it goes through unless stopped, or unless the null address is to be added.
  lemma RunSetChange(k: Kernel, name: string, prev: seq<Addr>, next: seq<Addr>, n: nat,
                     lies: set<Family>) returns (e: set<Addr>)
    requires name in k.sets && k.sets[name].elements == Elements(prev)
    requires NullAddr(k.sets[name].family) !in Elements(prev)
    ensures var steps := SetSteps(AddLines(name, Without(next, prev)) + DelLines(name, Without(prev, next)), true);
            var ok := n >= |steps| && NullAddr(k.sets[name].family) !in Elements(next);
            RunSteps(steps, n, lies, k) == (WithElements(k, name, e), ok) && (ok ==> e == Elements(next))
    ensures Elements(prev) * Elements(next) <= e <= Elements(prev) + Elements(next)
    ensures NullAddr(k.sets[name].family) !in e
    ensures NullAddr(k.sets[name].family) in Elements(next) ==> Elements(prev) <= e
  {
    hide AddLines, DelLines, SetSteps, RunSteps, WithElements, NullAddr;
    var added, removed := Without(next, prev), Without(prev, next);
    var zeros := NullAddr(k.sets[name].family);
    DeltaOfLists(prev, next);
    assert zeros in added <==> zeros in Elements(next) by { NullIsAdded(prev, next, zeros); }
    assert zeros !in removed;
    StepsOfConcat(AddLines(name, added), DelLines(name, removed), true);
    RunStepsAppend(SetSteps(AddLines(name, added), true), SetSteps(DelLines(name, removed), true), n, lies, k);
    e := RunAdds(k, name, added, n, lies);
    if n >= |added| && zeros !in added {
      var k1 := WithElements(k, name, e);
      ElementsSet(k, name, e);
      var e' := RunDels(k1, name, removed, n - |added|, lies);
      SetTwice(k, name, e, e');
      e := e';
    } else {
      var unused := RunDels(k, name, removed, 0, lies);
    }
  }

  lemma NullIsAdded(prev: seq<Addr>, next: seq<Addr>, zeros: Addr)
    requires zeros !in Elements(prev)
    ensures zeros in Without(next, prev) <==> zeros in Elements(next)
  {
  }

  lemma ElementsSet(k: Kernel, name: string, e: set<Addr>)
    requires name in k.sets
    ensures name in WithElements(k, name, e).sets && WithElements(k, name, e).sets[name].elements == e
    ensures WithElements(k, name, e).sets[name].family == k.sets[name].family
  {
  }

  lemma SetTwice(k: Kernel, name: string, e: set<Addr>, e': set<Addr>)
    requires name in k.sets
    ensures name in WithElements(k, name, e).sets
              && WithElements(WithElements(k, name, e), name, e') == WithElements(k, name, e')
  {
    assert WithElements(WithElements(k, name, e), name, e').sets == WithElements(k, name, e').sets;
  }

  lemma RunSetDelta(k0: Kernel, k: Kernel, prev: State, next: State, done: set<(Target, Family)>, t: Target,
                    f: Family, n: nat, lies: set<Family>)
    requires Mixed(k0, k, prev, next, done) && HasTarget(next, t) && (t, f) !in done
    ensures var steps := SetSteps(SetDelta(t, f, ListOf(prev, t, f), ListOf(next, t, f)), true);
            var (k', ok) := RunSteps(steps, n, lies, k);
            && ok == (n >= |steps| && NullAddr(f) !in Contents(next, t, f)) && Between(k0, k', prev, next)
            && (ok ==> Mixed(k0, k', prev, next, done + {(t, f)}))
            && (NullAddr(f) in Contents(next, t, f) ==> Contents(prev, t, f) <= Content(k', t, f))
  {
    hide SetName, TmpName, NullAddr, AddLines, DelLines, RunSteps, WellKept;
    IsProper(k, t, f);
    var e := RunSetChange(k, SetName(t, f), ListOf(prev, t, f), ListOf(next, t, f), n, lies);
    ContentChanged(k0, k, prev, next, done, t, f, e);
  }

  lemma IsProper(k: Kernel, t: Target, f: Family)
    requires WellKept(k) && SetName(t, f) in k.sets
    ensures Proper(k.sets[SetName(t, f)], f)
  {
    hide SetName, TmpName, NullAddr;
  }

  lemma ContentChanged(k0: Kernel, k: Kernel, prev: State, next: State, done: set<(Target, Family)>, t: Target,
                       f: Family, e: set<Addr>)
    requires Mixed(k0, k, prev, next, done) && HasTarget(next, t)
    requires Contents(prev, t, f) * Contents(next, t, f) <= e <= Contents(prev, t, f) + Contents(next, t, f)
    requires NullAddr(f) !in e
    ensures Between(k0, WithElements(k, SetName(t, f), e), prev, next)
    ensures e == Contents(next, t, f) ==> Mixed(k0, WithElements(k, SetName(t, f), e), prev, next, done + {(t, f)})
  {
    hide SetName, TmpName, NullAddr, Contents;
    NamesInjective();
  }

  lemma RunTargetDelta(k0: Kernel, k: Kernel, prev: State, next: State, done: set<(Target, Family)>, t: Target,
                       n: nat, lies: set<Family>)
    requires Mixed(k0, k, prev, next, done) && HasTarget(next, t) && done !! BothFamilies(t)
    ensures var steps := SetSteps(TargetDelta(prev, next, t), true);
            var (k', ok) := RunSteps(steps, n, lies, k);
            && ok == (n >= |steps| && Holds(next, t)) && Between(k0, k', prev, next)
            && (ok ==> Mixed(k0, k', prev, next, done + BothFamilies(t)))
  {
    hide SetDelta, Mixed, Between, RunSteps, NullAddr;
    var a, b := SetDelta(t, V4, ListOf(prev, t, V4), ListOf(next, t, V4)),
      SetDelta(t, V6, ListOf(prev, t, V6), ListOf(next, t, V6));
    StepsOfConcat(a, b, true);
    RunStepsAppend(SetSteps(a, true), SetSteps(b, true), n, lies, k);
    assert (t, V4) in BothFamilies(t) && (t, V6) in BothFamilies(t);
    RunSetDelta(k0, k, prev, next, done, t, V4, n, lies);
    var (k1, ok1) := RunSteps(SetSteps(a, true), n, lies, k);
    if ok1 {
      RunSetDelta(k0, k1, prev, next, done + {(t, V4)}, t, V6, n - |a|, lies);
      assert done + {(t, V4)} + {(t, V6)} == done + BothFamilies(t);
    }
  }

  predicate AllHold(state: State, uids: seq<int>) {
    forall i :: 0 <= i < |uids| ==> Holds(state, OneUser(uids[i]))
  }

  lemma OneMoreHolds(state: State, uids: seq<int>, uid: int)
    ensures AllHold(state, uids + [uid]) <==> AllHold(state, uids) && Holds(state, OneUser(uid))
  {
    hide Holds;
    var more := uids + [uid];
    assert more[|uids|] == uid && forall i :: 0 <= i < |uids| ==> more[i] == uids[i];
  }

  lemma {:induction false} RunUserDeltas(k0: Kernel, k: Kernel, prev: State, next: State, uids: seq<int>, n: nat,
                                         lies: set<Family>)
    requires Mixed(k0, k, prev, next, BothFamilies(Everyone)) && Elements(uids) <= next.perUser.Keys && Distinct(uids)
    ensures var steps := SetSteps(Each(uids, UserDelta(prev, next)), true);
            var (k', ok) := RunSteps(steps, n, lies, k);
            && ok == (n >= |steps| && AllHold(next, uids)) && Between(k0, k', prev, next)
            && (ok ==> Mixed(k0, k', prev, next, RefreshedBy(uids)))
  {
    hide TargetDelta, Mixed, Between, Holds;
    if uids == [] {
      assert RefreshedBy(uids) == BothFamilies(Everyone);
      MixedIsBetween(k0, k, prev, next, BothFamilies(Everyone));
      return;
    }
    var init, uid := uids[..|uids| - 1], uids[|uids| - 1];
    assert uids == init + [uid];
    assert uid in Elements(uids) && uid !in init && Elements(init) <= Elements(uids);
    RunUserDeltas(k0, k, prev, next, init, n, lies);
    RunLastDelta(k0, k, prev, next, init, uid, n, lies);
  }

  lemma RunLastDelta(k0: Kernel, k: Kernel, prev: State, next: State, uids: seq<int>, uid: int, n: nat,
                     lies: set<Family>)
    requires uid in next.perUser && uid !in uids
    requires var steps := SetSteps(Each(uids, UserDelta(prev, next)), true);
             var (k', ok) := RunSteps(steps, n, lies, k);
             && ok == (n >= |steps| && AllHold(next, uids)) && Between(k0, k', prev, next)
             && (ok ==> Mixed(k0, k', prev, next, RefreshedBy(uids)))
    ensures var steps := SetSteps(Each(uids + [uid], UserDelta(prev, next)), true);
            var (k', ok) := RunSteps(steps, n, lies, k);
            && ok == (n >= |steps| && AllHold(next, uids + [uid])) && Between(k0, k', prev, next)
            && (ok ==> Mixed(k0, k', prev, next, RefreshedBy(uids + [uid])))
  {
    hide TargetDelta, Mixed, Between, Each, SetSteps, RunSteps, Holds, AllHold;
    OneMoreHolds(next, uids, uid);
    var a, b := SetSteps(Each(uids, UserDelta(prev, next)), true),
      SetSteps(TargetDelta(prev, next, OneUser(uid)), true);
    LastDelta(prev, next, uids, uid);
    RunStepsAppend(a, b, n, lies, k);
    var (k1, ok1) := RunSteps(a, n, lies, k);
    if ok1 {
      RunTargetDelta(k0, k1, prev, next, RefreshedBy(uids), OneUser(uid), n - |a|, lies);
      RefreshedNext(uids, uid);
    }
  }

  lemma LastDelta(prev: State, next: State, uids: seq<int>, uid: int)
    ensures SetSteps(Each(uids + [uid], UserDelta(prev, next)), true)
         == SetSteps(Each(uids, UserDelta(prev, next)), true) + SetSteps(TargetDelta(prev, next, OneUser(uid)), true)
  {
    hide TargetDelta;
    assert (uids + [uid])[..|uids|] == uids;
    StepsOfConcat(Each(uids, UserDelta(prev, next)), TargetDelta(prev, next, OneUser(uid)), true);
  }

  function DeltaSteps(prev: State, next: State, uids: seq<int>): seq<Step> {
    SetSteps(DeltaLines(prev, next, uids), true)
  }

  // On a kernel that means the previous state, with the same users, a line of the delta is refused exactly when it adds
  // a null address: otherwise it is done unless stopped, wherever it stops the sets are in between, and done it leaves
  // exactly the next state.
  lemma DeltaRefinesFull(k0: Kernel, prev: State, next: State, n: nat, lies: set<Family>)
    requires Exact(k0, prev) && prev.perUser.Keys == next.perUser.Keys
    ensures var steps := DeltaSteps(prev, next, SortedInts(next.perUser.Keys));
            var (k, ok) := RunSteps(steps, n, lies, k0);
            && ok == (n >= |steps| && Holdable(next)) && Between(k0, k, prev, next)
            && (ok ==> Exact(k, next))
  {
    hide TargetDelta, Mixed, Between, Each, SetSteps, RunSteps, Exact, Holds, Holdable;
    AllHoldIff(next);
    var uids := SortedInts(next.perUser.Keys);
    IntLessStrict();
    AscendingDistinct(IntLess, uids);
    NothingMixed(k0, prev, next);
    var a, b := SetSteps(TargetDelta(prev, next, Everyone), true), SetSteps(Each(uids, UserDelta(prev, next)), true);
    StepsOfConcat(TargetDelta(prev, next, Everyone), Each(uids, UserDelta(prev, next)), true);
    RunStepsAppend(a, b, n, lies, k0);
    RunTargetDelta(k0, k0, prev, next, {}, Everyone, n, lies);
    var (k1, ok1) := RunSteps(a, n, lies, k0);
    if ok1 {
      assert {} + BothFamilies(Everyone) == BothFamilies(Everyone);
      RunUserDeltas(k0, k1, prev, next, uids, n - |a|, lies);
      var (k2, ok2) := RunSteps(b, n - |a|, lies, k1);
      if ok2 {
        AllMixed(k0, k2, prev, next);
      }
    }
  }

  lemma AllHoldIff(state: State)
    ensures Holdable(state) <==> Holds(state, Everyone) && AllHold(state, SortedInts(state.perUser.Keys))
  {
    hide Holds, Holdable;
    var uids := SortedInts(state.perUser.Keys);
    HoldableHolds(state);
    forall t | !HasTarget(state, t) ensures Holds(state, t) {
      AbsentHolds(state, t);
    }
    forall uid ensures uid in uids <==> uid in state.perUser {
      assert uid in uids <==> uid in Elements(uids);
    }
    if Holds(state, Everyone) && AllHold(state, uids) {
      forall t ensures Holds(state, t) {
        if t.OneUser? && HasTarget(state, t) {
          var i :| 0 <= i < |uids| && uids[i] == t.uid;
        }
      }
    }
  }

  lemma AbsentHolds(state: State, t: Target)
    requires !HasTarget(state, t)
    ensures Holds(state, t)
  {
  }

  lemma NothingMixed(k: Kernel, prev: State, next: State)
    requires Exact(k, prev) && prev.perUser.Keys == next.perUser.Keys
    ensures Mixed(k, k, prev, next, {})
  {
    hide SetName, TmpName, NullAddr, Contents;
    forall t, f | HasTarget(next, t) ensures SetName(t, f) in k.sets && Content(k, t, f) == Contents(prev, t, f) {
      assert Refreshed(k, prev, t, f);
    }
  }

  lemma AllMixed(k0: Kernel, k: Kernel, prev: State, next: State)
    requires Exact(k0, prev) && prev.perUser.Keys == next.perUser.Keys
    requires Mixed(k0, k, prev, next, RefreshedBy(SortedInts(next.perUser.Keys)))
    ensures Exact(k, next)
  {
    hide SetName, TmpName, NullAddr, Contents, ChainRules;
    var uids := SortedInts(next.perUser.Keys);
    forall t, f | HasTarget(next, t) ensures Refreshed(k, next, t, f) {
      assert t.OneUser? ==> t.uid in Elements(uids);
      assert f == V4 || f == V6;
      assert (t, f) in RefreshedBy(uids);
    }
    assert FilterDone(k0, prev, V4) && FilterDone(k0, prev, V6);
  }

  // Every-prefix safety of the delta: through each list, only what one of the two states blocks, and all that both
  // block.
  lemma BetweenIsSafe(k0: Kernel, k: Kernel, prev: State, next: State, t: Target, p: Packet)
    requires Exact(k0, prev) && prev.perUser.Keys == next.perUser.Keys && Between(k0, k, prev, next)
    ensures DropsThrough(k, t, p) ==> DropsThrough(k0, t, p) || (Concerns(t, p) && p.dst in Contents(next, t, p.family))
    ensures DropsThrough(k0, t, p) && p.dst in Contents(next, t, p.family) ==> DropsThrough(k, t, p)
  {
    hide SetName, TmpName, NullAddr, Contents, ChainRules;
    var f := p.family;
    assert FilterDone(k0, prev, f) && k.FilterOf(f) == k0.FilterOf(f);
    RuleInChain(prev, t, f);
    if HasTarget(prev, t) {
      assert HasTarget(next, t) && Refreshed(k0, prev, t, f);
    }
  }

  // ---------- Minimality ----------

  lemma {:induction false} LinesEmpty(name: string, addrs: seq<Addr>)
    ensures AddLines(name, addrs) == [] <==> addrs == []
    ensures DelLines(name, addrs) == [] <==> addrs == []
  {
  }

  lemma TargetDeltaEmpty(prev: State, next: State, t: Target)
    ensures TargetDelta(prev, next, t) == [] <==> SameContents(prev, next, t)
  {
    forall f: Family
      ensures SetDelta(t, f, ListOf(prev, t, f), ListOf(next, t, f)) == [] <==>
                Contents(prev, t, f) == Contents(next, t, f)
    {
      DeltaOfLists(ListOf(prev, t, f), ListOf(next, t, f));
      LinesEmpty(SetName(t, f), Without(ListOf(next, t, f), ListOf(prev, t, f)));
      LinesEmpty(SetName(t, f), Without(ListOf(prev, t, f), ListOf(next, t, f)));
    }
  }

  lemma {:induction false} UserDeltasEmpty(prev: State, next: State, uids: seq<int>)
    ensures Each(uids, UserDelta(prev, next)) == [] <==>
              forall uid :: uid in uids ==> SameContents(prev, next, OneUser(uid))
  {
    hide TargetDelta;
    if uids != [] {
      var init, last := uids[..|uids| - 1], uids[|uids| - 1];
      UserDeltasEmpty(prev, next, init);
      TargetDeltaEmpty(prev, next, OneUser(last));
      assert uids == init + [last];
    }
  }

  // No line is sent exactly when no set changed its membership.
  lemma DeltaMinimal(prev: State, next: State)
    requires prev.perUser.Keys == next.perUser.Keys
    ensures DeltaLines(prev, next, SortedInts(next.perUser.Keys)) == [] <==> forall t :: SameContents(prev, next, t)
  {
    hide TargetDelta, SameContents;
    var uids := SortedInts(next.perUser.Keys);
    UserDeltasEmpty(prev, next, uids);
    TargetDeltaEmpty(prev, next, Everyone);
    NoListNoChange(prev, next);
    forall uid ensures uid in uids <==> uid in next.perUser {
      assert uid in uids <==> uid in Elements(uids);
    }
    if DeltaLines(prev, next, uids) == [] {
      forall t ensures SameContents(prev, next, t) {
        assert t.OneUser? ==> SameContents(prev, next, OneUser(t.uid));
      }
    }
  }
}
