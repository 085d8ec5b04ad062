/** What an installed table does to packets, and that a delta turns the table of one state into that of the next. */
module NftMeaning {
  import opened Wrappers
  import opened Sorting
  import opened Backend
  import opened Diff
  import opened NftKernel
  import opened Nft
  import opened NftScript

  lemma EvalDropRules(t: Table, target: Target, rest: seq<Rule>, p: Packet, jumps: nat)
    requires forall f :: SetName(target, f) in t.sets
    ensures EvalRules(t, DropRules(target) + rest, p, jumps)
         == if p.dst in t.sets[SetName(target, p.family)].elements then Drop else EvalRules(t, rest, p, jumps)
  {
    var rules := DropRules(target) + rest;
    assert rules[1..][1..] == rest;
    assert rules[1..][0] == DropRules(target)[1];
  }

  lemma {:induction false} JumpForEntry(entries: seq<(int, string)>, uid: int)
    requires forall i :: 0 <= i < |entries| ==> entries[i].1 == ChainName(entries[i].0)
    ensures JumpFor(entries, uid)
         == if exists i :: 0 <= i < |entries| && entries[i].0 == uid then Some(ChainName(uid)) else None
  {
    if entries != [] && entries[0].0 != uid {
      JumpForEntry(entries[1..], uid);
      if i :| 0 <= i < |entries| && entries[i].0 == uid {
        assert entries[1..][i - 1].0 == uid;
      }
    }
  }

  // The dispatch sends a packet to the chain of its owner, if the owner has one.
  lemma DispatchTarget(uids: seq<int>, uid: int)
    ensures JumpFor(Entries(uids), uid) == if uid in uids then Some(ChainName(uid)) else None
  {
    EntriesAre(uids);
    JumpForEntry(Entries(uids), uid);
    assert uid in uids <==> exists i :: 0 <= i < |uids| && Entries(uids)[i].0 == uid;
  }

  // Compilation correctness: drop rules, dispatch and default accept together implement the specification.
  lemma ImplementsMeansSpec(rs: Ruleset, state: State, p: Packet)
    requires Implements(rs, state)
    ensures Drops(rs, p) <==> Blocks(state, p)
  {
    hide SetName, ChainName;
    var t, uids := rs.table, SortedInts(state.perUser.Keys);
    assert forall f :: HasTarget(state, Everyone) && SetName(Everyone, f) in t.sets;
    assert p.uid in uids <==> p.uid in Elements(uids);
    DispatchTarget(uids, p.uid);
    EvalOutput(t, uids, p);
    if p.uid in uids {
      assert HasTarget(state, OneUser(p.uid));
      assert forall f :: SetName(OneUser(p.uid), f) in t.sets;
      EvalDropRules(t, OneUser(p.uid), [], p, MAX_JUMPS - 1);
      assert DropRules(OneUser(p.uid)) + [] == DropRules(OneUser(p.uid));
    }
  }

  lemma EvalOutput(t: Table, uids: seq<int>, p: Packet)
    requires ChainsFor(t, uids) && t.chains[OUTPUT].rules == OutputRules(uids)
    requires forall f :: SetName(Everyone, f) in t.sets
    requires JumpFor(Entries(uids), p.uid) == if p.uid in uids then Some(ChainName(p.uid)) else None
    ensures EvalChain(t, OUTPUT, p, MAX_JUMPS) == Drop <==>
              || p.dst in t.sets[SetName(Everyone, p.family)].elements
              || (p.uid in uids && EvalRules(t, DropRules(OneUser(p.uid)), p, MAX_JUMPS - 1) == Drop)
  {
    var rest: seq<Rule> := if |uids| == 0 then [] else [UidMap(Entries(uids))];
    EvalDropRules(t, Everyone, rest, p, MAX_JUMPS);
    if |uids| > 0 {
      assert rest[1..] == [];
      assert EvalRules(t, rest[1..], p, MAX_JUMPS) == Continue;
    }
  }

  // ---------- Deltas ----------

  // Some sets already hold the next state's addresses, the others still those of the previous one.
  ghost predicate SetsMixed(t: Table, prev: State, next: State, done: set<Target>) {
    forall target, f :: HasTarget(next, target) ==>
                          && SetName(target, f) in t.sets
                          && t.sets[SetName(target, f)]
                             == ElementSet(f, Contents(if target in done then next else prev, target, f))
  }

  lemma RunElementDelta(name: string, prev: seq<Addr>, next: seq<Addr>, t: Table)
    requires name in t.sets && t.sets[name].elements == Elements(prev)
    ensures var r := Run(ElementDelta(name, prev, next), HasTable(t));
            && (r.Some? ==> r.value == HasTable(WithElements(t, name, Elements(next))))
            && (Distinct(prev) ==> r.Some?)
  {
    var added, removed := Without(next, prev), Without(prev, next);
    DeltaOfLists(prev, next);
    RunFillMore(name, added, t);
    if |removed| > 0 {
      var t1 := WithElements(t, name, Elements(prev) + Elements(added));
      RunAppend(Fill(name, added), [DeleteElements(name, removed)], HasTable(t));
      RunDelete(name, removed, t1);
      if Distinct(prev) {
        WithoutDistinct(prev, next);
      }
      SetTwice(t, name, Elements(prev) + Elements(added), Elements(next));
    } else {
      assert Elements(removed) == {};
      assert Elements(prev) + Elements(added) == Elements(next);
      assert ElementDelta(name, prev, next) == Fill(name, added);
    }
  }

  lemma SetTwice(t: Table, name: string, a: set<Addr>, b: set<Addr>)
    requires name in t.sets
    ensures WithElements(WithElements(t, name, a), name, b) == WithElements(t, name, b)
  {
    assert WithElements(WithElements(t, name, a), name, b).sets == WithElements(t, name, b).sets;
  }

  lemma RunDelete(name: string, addrs: seq<Addr>, t: Table)
    requires name in t.sets && addrs != [] && Elements(addrs) <= t.sets[name].elements
    ensures var r := Run([DeleteElements(name, addrs)], HasTable(t));
            && (r.Some? ==> r.value == HasTable(WithElements(t, name, t.sets[name].elements - Elements(addrs))))
            && (Distinct(addrs) ==> r.Some?)
  {
    RunOne(DeleteElements(name, addrs), HasTable(t));
    if Distinct(addrs) {
      DistinctSize(addrs);
    }
  }

  lemma RunFillMore(name: string, addrs: seq<Addr>, t: Table)
    requires name in t.sets
    ensures Run(Fill(name, addrs), HasTable(t))
              == Some(HasTable(WithElements(t, name, t.sets[name].elements + Elements(addrs))))
  {
    if |addrs| == 0 {
      assert t.sets[name].elements + Elements(addrs) == t.sets[name].elements;
      assert WithElements(t, name, t.sets[name].elements).sets == t.sets;
    } else {
      RunOne(AddElements(name, addrs), HasTable(t));
    }
  }

  // Following r, a delta for one more target: if it runs, that target is up to date too.
  ghost predicate Reached(r: Option<Ruleset>, chains: map<string, Chain>, prev: State, next: State, done: set<Target>) {
    r.Some? ==> r.value.HasTable? && r.value.table.chains == chains && SetsMixed(r.value.table, prev, next, done)
  }

  lemma TargetUpdated(prev: State, next: State, target: Target, done: set<Target>, t: Table)
    requires SetsMixed(t, prev, next, done) && HasTarget(next, target)
    ensures var t4 := WithElements(t, SetName(target, V4), Contents(next, target, V4));
            && SetName(target, V6) in t4.sets
            && t4.sets[SetName(target, V6)] == t.sets[SetName(target, V6)]
            && SetsMixed(WithElements(t4, SetName(target, V6), Contents(next, target, V6)), prev, next, done + {target})
  {
    hide SetName, Contents;
    NamesInjective();
  }

  lemma RunTargetDelta(prev: State, next: State, target: Target, done: set<Target>, t: Table)
    requires SetsMixed(t, prev, next, done) && HasTarget(next, target) && target !in done
    ensures var r := Run(TargetDelta(prev, next, target), HasTable(t));
            && Reached(r, t.chains, prev, next, done + {target})
            && (DistinctLists(prev) ==> r.Some?)
  {
    hide SetName, ElementDelta, Run;
    var n4, n6 := SetName(target, V4), SetName(target, V6);
    var d4 := ElementDelta(n4, ListOf(prev, target, V4), ListOf(next, target, V4));
    var d6 := ElementDelta(n6, ListOf(prev, target, V6), ListOf(next, target, V6));
    TargetUpdated(prev, next, target, done, t);
    RunElementDelta(n4, ListOf(prev, target, V4), ListOf(next, target, V4), t);
    RunElementDelta(n6, ListOf(prev, target, V6), ListOf(next, target, V6),
      WithElements(t, n4, Contents(next, target, V4)));
    RunAppend(d4, d6, HasTable(t));
  }

  lemma {:induction false} RunUserDeltas(prev: State, next: State, uids: seq<int>, t: Table)
    requires SetsMixed(t, prev, next, {Everyone}) && Elements(uids) <= next.perUser.Keys && Distinct(uids)
    ensures var r := Run(Each(uids, UserDelta(prev, next)), HasTable(t));
            && Reached(r, t.chains, prev, next, Populated(uids))
            && (DistinctLists(prev) ==> r.Some?)
  {
    if uids == [] {
      assert Populated(uids) == {Everyone};
      return;
    }
    var init, uid := uids[..|uids| - 1], uids[|uids| - 1];
    assert uids == init + [uid];
    assert uid in Elements(uids) && Elements(init) <= Elements(uids);
    RunUserDeltas(prev, next, init, t);
    RunAppend(Each(init, UserDelta(prev, next)), TargetDelta(prev, next, OneUser(uid)), HasTable(t));
    PopulatedNext(init, uid);
    var r := Run(Each(init, UserDelta(prev, next)), HasTable(t));
    if r.Some? {
      RunTargetDelta(prev, next, OneUser(uid), Populated(init), r.value.table);
    }
  }

  // On the table of the previous state, with the same users, the delta runs and leaves the table of the next state.
  lemma DeltaRefinesScript(prev: State, next: State, rs: Ruleset)
    requires Implements(rs, prev) && prev.perUser.Keys == next.perUser.Keys
    ensures var r := Run(Delta(prev, next), rs);
            && (r.Some? ==> Implements(r.value, next))
            && (DistinctLists(prev) ==> r.Some?)
  {
    hide TargetDelta, UserDelta, SetsMixed, SetsHold, Run, Each, SortedInts, DistinctLists, OutputRules, ChainName;
    var uids := SortedInts(next.perUser.Keys);
    AscendingDistinctInts(uids);
    NothingDone(prev, next, rs);
    RunTargetDelta(prev, next, Everyone, {}, rs.table);
    assert {} + {Everyone} == {Everyone};
    RunAppend(TargetDelta(prev, next, Everyone), Each(uids, UserDelta(prev, next)), rs);
    var r := Run(TargetDelta(prev, next, Everyone), rs);
    if r.Some? {
      RunUserDeltas(prev, next, uids, r.value.table);
      var last := Run(Delta(prev, next), rs);
      if last.Some? {
        AllDone(prev, next, last.value.table);
      }
    }
  }

  lemma NothingDone(prev: State, next: State, rs: Ruleset)
    requires Implements(rs, prev) && prev.perUser.Keys == next.perUser.Keys
    ensures SetsMixed(rs.table, prev, next, {})
  {
    assert forall target :: HasTarget(next, target) <==> HasTarget(prev, target);
  }

  lemma AllDone(prev: State, next: State, t: Table)
    requires SetsMixed(t, prev, next, Populated(SortedInts(next.perUser.Keys)))
    ensures SetsHold(t, next)
  {
    var uids := SortedInts(next.perUser.Keys);
    forall target | HasTarget(next, target) ensures target in Populated(uids) {
      assert target.OneUser? ==> target.uid in Elements(uids);
    }
  }

  // ---------- Minimality ----------

  lemma TargetDeltaEmpty(prev: State, next: State, t: Target)
    ensures TargetDelta(prev, next, t) == [] <==> SameContents(prev, next, t)
  {
    DeltaOfLists(ListOf(prev, t, V4), ListOf(next, t, V4));
    DeltaOfLists(ListOf(prev, t, V6), ListOf(next, t, V6));
  }

  lemma {:induction false} UserDeltasEmpty(prev: State, next: State, uids: seq<int>)
    ensures Each(uids, UserDelta(prev, next)) == [] <==>
              forall uid :: uid in uids ==> SameContents(prev, next, OneUser(uid))
  {
    hide TargetDelta, SameContents;
    if uids != [] {
      var init, last := uids[..|uids| - 1], uids[|uids| - 1];
      UserDeltasEmpty(prev, next, init);
      TargetDeltaEmpty(prev, next, OneUser(last));
      assert uids == init + [last];
    }
  }

  // No command at all is issued exactly when no set changed its membership.
  lemma DeltaMinimal(prev: State, next: State)
    requires prev.perUser.Keys == next.perUser.Keys
    ensures Delta(prev, next) == [] <==> forall t :: SameContents(prev, next, t)
  {
    hide TargetDelta, SameContents;
    var uids := SortedInts(next.perUser.Keys);
    UserDeltasEmpty(prev, next, uids);
    TargetDeltaEmpty(prev, next, Everyone);
    NoListNoChange(prev, next);
    assert forall uid :: uid in uids <==> uid in Elements(uids);
    if Delta(prev, next) == [] {
      forall t ensures SameContents(prev, next, t) {
        assert t.OneUser? ==> SameContents(prev, next, OneUser(t.uid));
      }
    }
  }
}
