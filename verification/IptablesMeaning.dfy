/** What the kernels reached by the iptables backend do to packets. */
module IptablesMeaning {
  import opened Wrappers
  import opened Sorting
  import opened Backend
  import opened IpKernel
  import opened Iptables
  import opened IptablesSafety

  // The lists that can block a packet.
  predicate Concerns(t: Target, p: Packet) {
    t == Everyone || t == OneUser(p.uid)
  }

  // The kernel drops the packet through the rule of one list.
  predicate DropsThrough(k: Kernel, t: Target, p: Packet) {
    var filter := k.FilterOf(p.family);
    && Concerns(t, p) && Jump in filter.output && filter.chain.Some?
    && RuleFor(t, p.family) in filter.chain.value && p.dst in Content(k, t, p.family)
  }

  lemma DropsThroughSome(k: Kernel, p: Packet)
    requires WellKept(k)
    ensures Drops(k, p) <==> exists t :: DropsThrough(k, t, p)
  {
    hide SetName, TmpName, NullAddr;
    var filter := k.FilterOf(p.family);
    assert ChainKept(k, p.family);
    if Drops(k, p) {
      var rules := filter.chain.value;
      var i :| 0 <= i < |rules| && Matches(k, rules[i], p);
      assert RuleKept(k, rules[i], p.family);
      assert DropsThrough(k, TargetOf(rules[i]), p);
    }
    if t :| DropsThrough(k, t, p) {
      var rules := filter.chain.value;
      var i :| 0 <= i < |rules| && rules[i] == RuleFor(t, p.family);
      assert SetName(t, p.family) in k.sets;
      assert Matches(k, rules[i], p);
    }
  }

  lemma BlocksThroughSome(state: State, p: Packet)
    ensures Blocks(state, p) <==> exists t :: Concerns(t, p) && p.dst in Contents(state, t, p.family)
  {
    assert Concerns(Everyone, p) && Concerns(OneUser(p.uid), p);
  }

  lemma NoListNoContents(state: State, t: Target, f: Family)
    requires !HasTarget(state, t)
    ensures Contents(state, t, f) == {}
  {
  }

  lemma RuleInChain(state: State, t: Target, f: Family)
    ensures RuleFor(t, f) in ChainRules(SortedInts(state.perUser.Keys), f) <==> HasTarget(state, t)
  {
    hide SetName, ChainRules;
    ChainRulesAre(state, f);
    assert TargetOf(RuleFor(t, f)) == t;
  }

  // An exact kernel implements the specification.
  lemma ExactMeansSpec(k: Kernel, state: State, p: Packet)
    requires Exact(k, state)
    ensures Drops(k, p) <==> Blocks(state, p)
  {
    hide SetName, TmpName, NullAddr, Contents, ChainRules;
    DropsThroughSome(k, p);
    BlocksThroughSome(state, p);
    forall t ensures DropsThrough(k, t, p) <==> Concerns(t, p) && p.dst in Contents(state, t, p.family) {
      ExactThrough(k, state, t, p);
    }
  }

  lemma ExactThrough(k: Kernel, state: State, t: Target, p: Packet)
    requires Exact(k, state)
    ensures DropsThrough(k, t, p) <==> Concerns(t, p) && p.dst in Contents(state, t, p.family)
  {
    hide SetName, TmpName, NullAddr, Contents, ChainRules;
    var f := p.family;
    RuleInChain(state, t, f);
    assert FilterDone(k, state, f);
    if HasTarget(state, t) {
      assert Refreshed(k, state, t, f);
    } else {
      NoListNoContents(state, t, f);
    }
  }

  // Every-prefix safety, on packets: nothing is dropped that neither the old kernel nor the new state drops, and what
  // one list blocks before and after never slips through.
  lemma ReachedIsSafe(k0: Kernel, k: Kernel, state: State, p: Packet)
    requires WellKept(k0) && Reached(k0, k, state)
    ensures Drops(k, p) ==> Drops(k0, p) || Blocks(state, p)
    ensures forall t :: DropsThrough(k0, t, p) && p.dst in Contents(state, t, p.family) ==> DropsThrough(k, t, p)
    ensures (exists t :: DropsThrough(k0, t, p) && p.dst in Contents(state, t, p.family)) ==> Drops(k, p)
  {
    hide SetName, TmpName, NullAddr, Contents, ChainRules, DropsThrough, WellKept;
    assert WellKept(k) by { ReachedKept(k0, k, state); }
    DropsThroughSome(k0, p);
    DropsThroughSome(k, p);
    BlocksThroughSome(state, p);
    forall t | DropsThrough(k, t, p)
      ensures DropsThrough(k0, t, p) || (Concerns(t, p) && p.dst in Contents(state, t, p.family))
    {
      NothingNew(k0, k, state, t, p);
    }
    forall t | DropsThrough(k0, t, p) && p.dst in Contents(state, t, p.family) ensures DropsThrough(k, t, p) {
      NothingLost(k0, k, state, t, p);
    }
  }

  lemma ReachedKept(k0: Kernel, k: Kernel, state: State)
    requires Reached(k0, k, state)
    ensures WellKept(k) && OldOrNew(k0, k, state) && forall f :: FilterReached(k0, k, state, f)
  {
    hide SetName, TmpName, NullAddr, Contents, ChainRules, WellKept, OldOrNew, FilterReached;
    forall f ensures FilterReached(k0, k, state, f) {
      assert f == V4 || f == V6;
    }
  }

  lemma NothingNew(k0: Kernel, k: Kernel, state: State, t: Target, p: Packet)
    requires Reached(k0, k, state) && DropsThrough(k, t, p)
    ensures DropsThrough(k0, t, p) || (Concerns(t, p) && p.dst in Contents(state, t, p.family))
  {
    hide SetName, TmpName, NullAddr, Contents, ChainRules, WellKept;
    var f := p.family;
    ReachedKept(k0, k, state);
    assert FilterReached(k0, k, state, f);
    if k.FilterOf(f) != k0.FilterOf(f) {
      RuleInChain(state, t, f);
      assert Refreshed(k, state, t, f);
    }
  }

  lemma NothingLost(k0: Kernel, k: Kernel, state: State, t: Target, p: Packet)
    requires Reached(k0, k, state) && DropsThrough(k0, t, p) && p.dst in Contents(state, t, p.family)
    ensures DropsThrough(k, t, p)
  {
    hide SetName, TmpName, NullAddr, ChainRules, WellKept;
    var f := p.family;
    if !HasTarget(state, t) {
      NoListNoContents(state, t, f);
    }
    ReachedKept(k0, k, state);
    assert FilterReached(k0, k, state, f);
    if k.FilterOf(f) != k0.FilterOf(f) {
      RuleInChain(state, t, f);
    }
  }

  // ---------- What a payload does not name, it does not change ----------

  predicate Mentions(s: Step, name: string) {
    match s
    case SetLine(Swap(a, b), _) => a == name || b == name
    case SetLine(l, _) => l.name == name
    case _ => false
  }

  ghost predicate Silent(steps: seq<Step>, name: string) {
    forall s :: s in steps ==> !Mentions(s, name)
  }

  predicate Untouched(k: Kernel, k': Kernel, name: string) {
    (name in k.sets <==> name in k'.sets) && (name in k.sets ==> k.sets[name] == k'.sets[name])
  }

  lemma {:induction false} UnmentionedUntouched(steps: seq<Step>, n: nat, lies: set<Family>, k: Kernel, name: string)
    requires Silent(steps, name)
    ensures Untouched(k, RunSteps(steps, n, lies, k).0, name)
  {
    if steps != [] && n > 0 && ExecStep(steps[0], lies, k).Some? {
      assert steps[0] in steps && steps == [steps[0]] + steps[1..];
      UnmentionedUntouched(steps[1..], n - 1, lies, ExecStep(steps[0], lies, k).value, name);
    }
  }

  lemma {:induction false} AddLinesMention(name: string, addrs: seq<Addr>)
    ensures forall i :: 0 <= i < |AddLines(name, addrs)| ==>
              AddLines(name, addrs)[i].Add? && AddLines(name, addrs)[i].name == name
  {
    if addrs != [] {
      AddLinesMention(name, addrs[..|addrs| - 1]);
    }
  }

  // The names a refresh of one list mentions.
  lemma RefreshMentions(t: Target, f: Family, addrs: seq<Addr>, name: string)
    requires name != SetName(t, f) && name != TmpName(t, f)
    ensures var steps := SetSteps(SetRefresh(t, f, addrs), false); Silent(steps, name)
  {
    hide SetName, TmpName, NullAddr;
    AddLinesMention(TmpName(t, f), addrs);
  }

  lemma TargetRefreshMentions(state: State, t: Target, name: string)
    requires forall f :: name != SetName(t, f) && name != TmpName(t, f)
    ensures var steps := SetSteps(TargetRefresh(state, t), false); Silent(steps, name)
  {
    hide SetName, TmpName, NullAddr, SetRefresh, Mentions;
    RefreshMentions(t, V4, ListOf(state, t, V4), name);
    RefreshMentions(t, V6, ListOf(state, t, V6), name);
    StepsOfConcat(SetRefresh(t, V4, ListOf(state, t, V4)), SetRefresh(t, V6, ListOf(state, t, V6)), false);
  }

  lemma {:induction false} UserRefreshesMention(state: State, uids: seq<int>, name: string)
    requires forall uid, f :: name != SetName(OneUser(uid), f) && name != TmpName(OneUser(uid), f)
    ensures var steps := SetSteps(Each(uids, UserRefresh(state)), false);
            Silent(steps, name)
  {
    hide SetName, TmpName, NullAddr, TargetRefresh, Mentions;
    if uids != [] {
      var init, uid := uids[..|uids| - 1], uids[|uids| - 1];
      UserRefreshesMention(state, init, name);
      TargetRefreshMentions(state, OneUser(uid), name);
      StepsOfConcat(Each(init, UserRefresh(state)), TargetRefresh(state, OneUser(uid)), false);
    }
  }

  // Refreshing one list leaves every other list's contents alone, wherever it stops.
  lemma RefreshingOneList(state: State, t: Target, n: nat, lies: set<Family>, k: Kernel, other: Target, f: Family)
    requires other != t
    ensures Content(RunSteps(SetSteps(TargetRefresh(state, t), false), n, lies, k).0, other, f) == Content(k, other, f)
  {
    hide SetName, TmpName, NullAddr, TargetRefresh;
    NamesInjective();
    TargetRefreshMentions(state, t, SetName(other, f));
    UnmentionedUntouched(SetSteps(TargetRefresh(state, t), false), n, lies, k, SetName(other, f));
  }

  // A full apply touches no set but ours.
  lemma ForeignSetsUntouched(state: State, n: nat, lies: set<Family>, k: Kernel, name: string)
    requires !(SET_PREFIX <= name)
    ensures Untouched(k, RunSteps(FullSteps(state, SortedInts(state.perUser.Keys)), n, lies, k).0, name)
  {
    hide TargetRefresh, ChainRules, Mentions;
    var uids := SortedInts(state.perUser.Keys);
    assert forall t, f :: SET_PREFIX <= SetName(t, f) && SET_PREFIX <= TmpName(t, f);
    FullStepsMention(state, uids, name);
    UnmentionedUntouched(FullSteps(state, uids), n, lies, k, name);
  }

  lemma FullStepsMention(state: State, uids: seq<int>, name: string)
    requires forall t, f :: name != SetName(t, f) && name != TmpName(t, f)
    ensures var steps := FullSteps(state, uids); Silent(steps, name)
  {
    hide SetName, TmpName, NullAddr, TargetRefresh, ChainRules, SetSteps;
    TargetRefreshMentions(state, Everyone, name);
    UserRefreshesMention(state, uids, name);
    StepsOfConcat(TargetRefresh(state, Everyone), Each(uids, UserRefresh(state)), false);
  }
}
