/** What the nft scripts do: a full script installs its state from any ruleset, a delta moves one state to the next. */
module NftScript {
  import opened Wrappers
  import opened Sorting
  import opened Backend
  import opened Diff
  import opened NftKernel
  import opened Nft

  function OutputRules(uids: seq<int>): seq<Rule> {
    DropRules(Everyone) + (if |uids| == 0 then [] else [UidMap(Entries(uids))])
  }

  // The sets of the global target and of the listed users exist; those of the filled targets hold their addresses,
  // the others are still empty.
  ghost predicate SetsFilled(t: Table, state: State, uids: seq<int>, filled: set<Target>) {
    forall target, f ::
      && (SetName(target, f) in t.sets <==> target.Everyone? || target.uid in uids)
      && (SetName(target, f) in t.sets ==>
            t.sets[SetName(target, f)] == ElementSet(f, if target in filled then Contents(state, target, f) else {}))
  }

  ghost predicate SetsHold(t: Table, state: State) {
    forall target, f :: HasTarget(state, target) ==>
                          && SetName(target, f) in t.sets
                          && t.sets[SetName(target, f)] == ElementSet(f, Contents(state, target, f))
  }

  ghost predicate ChainsFor(t: Table, uids: seq<int>) {
    && (forall uid :: uid in uids ==>
          ChainName(uid) in t.chains && t.chains[ChainName(uid)] == Chain(false, DropRules(OneUser(uid))))
    && (forall uid :: ChainName(uid) in t.chains ==> uid in uids)
    && OUTPUT in t.chains && t.chains[OUTPUT].hooked
    && (forall n :: n in t.chains && t.chains[n].hooked ==> n == OUTPUT)
  }

  // The table is exactly the one a full script builds for the state.
  ghost predicate Implements(rs: Ruleset, state: State) {
    && rs.HasTable?
    && SetsHold(rs.table, state)
    && var uids := SortedInts(state.perUser.Keys);
       ChainsFor(rs.table, uids) && rs.table.chains[OUTPUT].rules == OutputRules(uids)
  }

  lemma NamesInjective()
    ensures forall t, f, t', f' :: SetName(t, f) == SetName(t', f') ==> t == t' && f == f'
    ensures forall a, b :: ChainName(a) == ChainName(b) ==> a == b
    ensures forall a :: ChainName(a) != OUTPUT
  {
    forall t, f, t', f' | SetName(t, f) == SetName(t', f') ensures t == t' && f == f' {
      SetNameInjective(t, f, t', f');
    }
    forall a, b ensures ChainName(a) != OUTPUT && (ChainName(a) == ChainName(b) ==> a == b) {
      ChainNameInjective(a, b);
    }
  }

  // ---------- Installing a state ----------

  lemma {:induction false} RunDeclarations(state: State, uids: seq<int>, t0: Table) returns (t: Table)
    requires SetsFilled(t0, state, [], {})
    ensures Run(Each(uids, Declaration), HasTable(t0)) == Some(HasTable(t))
    ensures SetsFilled(t, state, uids, {}) && t.chains == t0.chains
  {
    if uids == [] {
      return t0;
    }
    var init, uid := uids[..|uids| - 1], uids[|uids| - 1];
    var t1 := RunDeclarations(state, init, t0);
    RunAppend(Each(init, Declaration), Declaration(uid), HasTable(t0));
    t := RunDeclaration(state, init, uid, t1);
    assert forall u :: u in uids <==> u in init || u == uid;
  }

  lemma RunDeclaration(state: State, uids: seq<int>, uid: int, t0: Table) returns (t: Table)
    requires SetsFilled(t0, state, uids, {})
    ensures Run(Declaration(uid), HasTable(t0)) == Some(HasTable(t))
    ensures SetsFilled(t, state, uids + [uid], {}) && t.chains == t0.chains
  {
    hide SetName;
    NamesInjective();
    var n4, n6 := SetName(OneUser(uid), V4), SetName(OneUser(uid), V6);
    t := t0.(sets := t0.sets[n4 := ElementSet(V4, {})][n6 := ElementSet(V6, {})]);
    assert uid in uids ==> t.sets == t0.sets;
    RunTwo(Declaration(uid), HasTable(t0));
  }

  lemma RunTwo(script: seq<Cmd>, rs: Ruleset)
    requires |script| == 2
    ensures Run(script, rs) == (var r := Exec(script[0], rs); if r.None? then None else Exec(script[1], r.value))
  {
    assert script[1..] == [script[1]];
    if Exec(script[0], rs).Some? {
      RunOne(script[1], Exec(script[0], rs).value);
    }
  }

  lemma RunOne(c: Cmd, rs: Ruleset)
    ensures Run([c], rs) == Exec(c, rs)
  {
    assert [c][1..] == [];
    match Exec(c, rs)
    case None =>
    case Some(next) => assert Run([], next) == Some(next);
  }

  lemma {:induction false} RunUserChains(state: State, all: seq<int>, uids: seq<int>, t0: Table) returns (t: Table)
    requires SetsFilled(t0, state, all, {}) && Elements(uids) <= Elements(all) && Distinct(uids)
    requires ChainsFor(t0, [])
    ensures Run(Each(uids, UserChain), HasTable(t0)) == Some(HasTable(t))
    ensures ChainsFor(t, uids) && t.sets == t0.sets && t.chains[OUTPUT] == t0.chains[OUTPUT]
  {
    hide SetName, ChainName, DropRules, UserChain;
    if uids == [] {
      return t0;
    }
    var init, uid := uids[..|uids| - 1], uids[|uids| - 1];
    assert uid in Elements(all) && Elements(init) <= Elements(uids);
    var t1 := RunUserChains(state, all, init, t0);
    RunAppend(Each(init, UserChain), UserChain(uid), HasTable(t0));
    t := RunUserChain(state, all, init, uid, t1);
    assert uids == init + [uid];
  }

  lemma RunUserChain(state: State, all: seq<int>, uids: seq<int>, uid: int, t0: Table) returns (t: Table)
    requires SetsFilled(t0, state, all, {}) && uid in all && uid !in uids
    requires ChainsFor(t0, uids)
    ensures Run(UserChain(uid), HasTable(t0)) == Some(HasTable(t))
    ensures ChainsFor(t, uids + [uid]) && t.sets == t0.sets && t.chains[OUTPUT] == t0.chains[OUTPUT]
  {
    hide SetName, ChainName;
    NamesInjective();
    var n := ChainName(uid);
    var script := UserChain(uid);
    var rules := DropRules(OneUser(uid));
    var t1 := t0.(chains := t0.chains[n := Chain(false, [])]);
    assert RuleAccepted(t1, rules[0]);
    var t2 := t1.(chains := t1.chains[n := Chain(false, [rules[0]])]);
    assert RuleAccepted(t2, rules[1]);
    t := t2.(chains := t2.chains[n := Chain(false, rules)]);
    assert [] + [rules[0]] == [rules[0]] && [rules[0]] + [rules[1]] == rules;
    assert script[1..] == [script[1], script[2]];
    RunTwo(script[1..], HasTable(t1));
    assert t1.chains[n].(rules := t1.chains[n].rules + [rules[0]]) == Chain(false, [rules[0]]);
    assert Exec(script[1], HasTable(t1)) == Some(HasTable(t2));
    assert Exec(script[2], HasTable(t2)) == Some(HasTable(t));
  }

  lemma {:induction false} EntriesAre(uids: seq<int>)
    ensures |Entries(uids)| == |uids|
    ensures forall i :: 0 <= i < |uids| ==> Entries(uids)[i] == (uids[i], ChainName(uids[i]))
  {
    hide ChainName;
    if uids != [] {
      EntriesAre(uids[..|uids| - 1]);
    }
  }

  lemma RunGlobalRules(state: State, uids: seq<int>, t0: Table) returns (t: Table)
    requires SetsFilled(t0, state, uids, {}) && ChainsFor(t0, uids)
    requires t0.chains[OUTPUT].rules == []
    ensures Run(GlobalRules(), HasTable(t0)) == Some(HasTable(t))
    ensures ChainsFor(t, uids) && t.sets == t0.sets && t.chains[OUTPUT].rules == DropRules(Everyone)
  {
    hide SetName, ChainName;
    NamesInjective();
    var rules := DropRules(Everyone);
    var t1 := t0.(chains := t0.chains[OUTPUT := Chain(true, [rules[0]])]);
    t := t1.(chains := t1.chains[OUTPUT := Chain(true, rules)]);
    assert RuleAccepted(t0, rules[0]) && RuleAccepted(t1, rules[1]);
    assert [] + [rules[0]] == [rules[0]] && [rules[0]] + [rules[1]] == rules;
    RunTwo(GlobalRules(), HasTable(t0));
  }

  // The verdict map is refused exactly when some uid does not fit the kernel's uids.
  lemma RunDispatch(uids: seq<int>, t0: Table) returns (t: Table)
    requires ChainsFor(t0, uids) && Distinct(uids) && t0.chains[OUTPUT].rules == DropRules(Everyone)
    ensures var r := Run(Dispatch(uids), HasTable(t0));
            if forall uid :: uid in uids ==> 0 <= uid < 0x1_0000_0000 then r == Some(HasTable(t)) else r == None
    ensures ChainsFor(t, uids) && t.sets == t0.sets && t.chains[OUTPUT].rules == OutputRules(uids)
  {
    if |uids| == 0 {
      return t0;
    }
    var dispatch := UidMap(Entries(uids));
    t := t0.(chains := t0.chains[OUTPUT := Chain(true, OutputRules(uids))]);
    DispatchAccepted(uids, t0);
    RunOne(AddRule(OUTPUT, dispatch), HasTable(t0));
    forall uid ensures ChainName(uid) != OUTPUT { ChainNameInjective(uid, uid); }
  }

  lemma DispatchAccepted(uids: seq<int>, t: Table)
    requires ChainsFor(t, uids) && Distinct(uids) && uids != []
    ensures RuleAccepted(t, UidMap(Entries(uids))) <==> forall uid :: uid in uids ==> 0 <= uid < 0x1_0000_0000
  {
    hide ChainName;
    EntriesAre(uids);
    var entries := Entries(uids);
    forall i | 0 <= i < |uids|
      ensures entries[i].1 in t.chains && !t.chains[entries[i].1].hooked
    {
      assert uids[i] in uids;
    }
    if RuleAccepted(t, UidMap(entries)) {
      forall uid | uid in uids ensures 0 <= uid < 0x1_0000_0000 {
        var i :| 0 <= i < |uids| && uids[i] == uid;
        assert entries[i].0 == uid;
      }
    }
  }

  lemma RunFill(name: string, addrs: seq<Addr>, t: Table)
    requires name in t.sets && t.sets[name].elements == {}
    ensures Run(Fill(name, addrs), HasTable(t)) == Some(HasTable(WithElements(t, name, Elements(addrs))))
  {
    if |addrs| == 0 {
      assert WithElements(t, name, Elements(addrs)) == t by {
        assert Elements(addrs) == {};
        assert t.sets[name := t.sets[name]] == t.sets;
      }
    } else {
      assert {} + Elements(addrs) == Elements(addrs);
    }
  }

  lemma RunFillTarget(state: State, uids: seq<int>, filled: set<Target>, target: Target, t0: Table) returns (t: Table)
    requires SetsFilled(t0, state, uids, filled)
    requires target !in filled && (target.Everyone? || target.uid in uids)
    ensures Run(FillTarget(state, target), HasTable(t0)) == Some(HasTable(t))
    ensures SetsFilled(t, state, uids, filled + {target}) && t.chains == t0.chains
  {
    hide SetName;
    NamesInjective();
    var n4, n6 := SetName(target, V4), SetName(target, V6);
    RunFill(n4, ListOf(state, target, V4), t0);
    var t1 := WithElements(t0, n4, Contents(state, target, V4));
    RunFill(n6, ListOf(state, target, V6), t1);
    t := WithElements(t1, n6, Contents(state, target, V6));
    RunAppend(Fill(n4, ListOf(state, target, V4)), Fill(n6, ListOf(state, target, V6)), HasTable(t0));
  }

  // The targets populated once the loop has passed these users.
  function Populated(uids: seq<int>): set<Target> {
    {Everyone} + set uid | uid in uids :: OneUser(uid)
  }

  lemma PopulatedNext(uids: seq<int>, uid: int)
    requires uid !in uids
    ensures Populated(uids + [uid]) == Populated(uids) + {OneUser(uid)}
    ensures OneUser(uid) !in Populated(uids)
  {
  }

  lemma {:induction false} RunFillUsers(state: State, all: seq<int>, uids: seq<int>, t0: Table) returns (t: Table)
    requires SetsFilled(t0, state, all, {Everyone}) && Elements(uids) <= Elements(all) && Distinct(uids)
    ensures Run(Each(uids, FillUser(state)), HasTable(t0)) == Some(HasTable(t))
    ensures SetsFilled(t, state, all, Populated(uids))
    ensures t.chains == t0.chains
  {
    if uids == [] {
      assert Populated(uids) == {Everyone};
      return t0;
    }
    var init, uid := uids[..|uids| - 1], uids[|uids| - 1];
    assert uids == init + [uid];
    assert uid in Elements(all) && Elements(init) <= Elements(uids);
    var t1 := RunFillUsers(state, all, init, t0);
    RunAppend(Each(init, FillUser(state)), FillTarget(state, OneUser(uid)), HasTable(t0));
    PopulatedNext(init, uid);
    t := RunFillTarget(state, all, Populated(init), OneUser(uid), t1);
  }

  lemma RunHeader(state: State, rs: Ruleset) returns (t: Table)
    ensures Run(HEADER, rs) == Some(HasTable(t))
    ensures SetsFilled(t, state, [], {}) && t.chains == map[]
  {
    NamesInjective();
    var n4, n6 := SetName(Everyone, V4), SetName(Everyone, V6);
    var empty := Table(map[], map[]);
    t := Table(map[n4 := ElementSet(V4, {}), n6 := ElementSet(V6, {})], map[]);
    assert HEADER[1..][1..][1..] == [AddSet(n4, V4), AddSet(n6, V6)];
    RunTwo([AddSet(n4, V4), AddSet(n6, V6)], HasTable(empty));
    assert Run(HEADER[1..][1..][1..], HasTable(empty)) == Some(HasTable(t));
    assert Run(HEADER[1..][1..], NoTable) == Some(HasTable(t));
    var added := Exec(AddTable, rs).value;
    assert Run(HEADER[1..], added) == Some(HasTable(t));
  }

  lemma RunStructure(state: State, uids: seq<int>, rs: Ruleset) returns (t: Table)
    requires Distinct(uids)
    ensures Run(Structure(uids), rs) == Some(HasTable(t))
    ensures SetsFilled(t, state, uids, {}) && ChainsFor(t, uids) && t.chains[OUTPUT].rules == []
  {
    var t0 := RunHeader(state, rs);
    var t1 := RunDeclarations(state, uids, t0);
    var t2 := t1.(chains := t1.chains[OUTPUT := Chain(true, [])]);
    assert ChainsFor(t2, []) by { NamesInjective(); }
    RunOne(AddChain(OUTPUT, true), HasTable(t1));
    t := RunUserChains(state, uids, uids, t2);
    var s1 := HEADER + Each(uids, Declaration);
    RunAppend(HEADER, Each(uids, Declaration), rs);
    RunAppend(s1, [AddChain(OUTPUT, true)], rs);
    RunAppend(s1 + [AddChain(OUTPUT, true)], Each(uids, UserChain), rs);
  }

  lemma RunRules(state: State, uids: seq<int>, rs: Ruleset) returns (t: Table)
    requires Distinct(uids)
    ensures var r := Run(Structure(uids) + GlobalRules() + Dispatch(uids), rs);
            if forall uid :: uid in uids ==> 0 <= uid < 0x1_0000_0000 then r == Some(HasTable(t)) else r == None
    ensures SetsFilled(t, state, uids, {}) && ChainsFor(t, uids) && t.chains[OUTPUT].rules == OutputRules(uids)
  {
    var t0 := RunStructure(state, uids, rs);
    var t1 := RunGlobalRules(state, uids, t0);
    t := RunDispatch(uids, t1);
    RunAppend(Structure(uids), GlobalRules(), rs);
    RunAppend(Structure(uids) + GlobalRules(), Dispatch(uids), rs);
  }

  lemma RunScript(state: State, uids: seq<int>, rs: Ruleset) returns (t: Table)
    requires Distinct(uids)
    ensures var r := Run(ScriptFor(state, uids), rs);
            if forall uid :: uid in uids ==> 0 <= uid < 0x1_0000_0000 then r == Some(HasTable(t)) else r == None
    ensures SetsFilled(t, state, uids, Populated(uids))
    ensures ChainsFor(t, uids) && t.chains[OUTPUT].rules == OutputRules(uids)
  {
    var t0 := RunRules(state, uids, rs);
    assert {} + {Everyone} == {Everyone};
    var t1 := RunFillTarget(state, uids, {}, Everyone, t0);
    t := RunFillUsers(state, uids, uids, t1);
    var rules := Structure(uids) + GlobalRules() + Dispatch(uids);
    RunAppend(rules, FillTarget(state, Everyone), rs);
    RunAppend(rules + FillTarget(state, Everyone), Each(uids, FillUser(state)), rs);
  }

  // A full script never fails (uids being what they are), whatever ruleset it starts from, and installs its state.
  lemma ScriptInstalls(state: State, rs: Ruleset)
    ensures var r := Run(Script(state), rs);
            if UidsInRange(state) then r.Some? && Implements(r.value, state) else r == None
  {
    var uids := SortedInts(state.perUser.Keys);
    AscendingDistinctInts(uids);
    assert forall uid :: uid in uids <==> uid in Elements(uids);
    var t := RunScript(state, uids, rs);
    assert UidsInRange(state) <==> forall uid :: uid in uids ==> 0 <= uid < 0x1_0000_0000;
    SetsFilledHold(t, state, uids);
  }

  lemma SetsFilledHold(t: Table, state: State, uids: seq<int>)
    requires SetsFilled(t, state, uids, Populated(uids))
    requires Elements(uids) == state.perUser.Keys
    ensures SetsHold(t, state)
  {
    forall target, f | HasTarget(state, target)
      ensures SetName(target, f) in t.sets && t.sets[SetName(target, f)] == ElementSet(f, Contents(state, target, f))
    {
      assert target.OneUser? ==> target.uid in Elements(uids);
    }
  }

  lemma AscendingDistinctInts(s: seq<int>)
    requires Ascending(IntLess, s)
    ensures Distinct(s)
  {
    IntLessStrict();
    AscendingDistinct(IntLess, s);
  }
}
