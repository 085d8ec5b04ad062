/** The nftables backend: full scripts, element deltas, and Apply with its self-heal. */
module Nft {
  import opened Wrappers
  import opened Decimal
  import opened Sorting
  import opened Backend
  import opened Diff
  import opened NftKernel

  function FamilyDigit(f: Family): char {
    if f == V4 then '4' else '6'
  }

  function SetName(t: Target, f: Family): string {
    "blocked_v" + [FamilyDigit(f)] + (match t case Everyone => "_global" case OneUser(uid) => "_uid_" + Itoa(uid))
  }

  function ChainName(uid: int): string {
    "uid_" + Itoa(uid)
  }

  const OUTPUT := "output"

  lemma SetNameInjective(t: Target, f: Family, t': Target, f': Family)
    requires SetName(t, f) == SetName(t', f')
    ensures t == t' && f == f'
  {
    hide Itoa;
    var n, n' := SetName(t, f), SetName(t', f');
    assert n[9] == FamilyDigit(f) && n'[9] == FamilyDigit(f');
    assert n[11] == if t.Everyone? then 'g' else 'u';
    assert n'[11] == if t'.Everyone? then 'g' else 'u';
    if t.OneUser? {
      assert n[15..] == Itoa(t.uid) && n'[15..] == Itoa(t'.uid);
      ItoaInjective(t.uid, t'.uid);
    }
  }

  lemma ChainNameInjective(a: int, b: int)
    ensures ChainName(a) != OUTPUT
    ensures ChainName(a) == ChainName(b) ==> a == b
  {
    assert ChainName(a)[0] == 'u' && OUTPUT[0] == 'o';
    assert ChainName(a)[4..] == Itoa(a) && ChainName(b)[4..] == Itoa(b);
    if ChainName(a) == ChainName(b) {
      ItoaInjective(a, b);
    }
  }

  // ---------- The text of the scripts, as sequences of commands ----------

  function DropRules(t: Target): seq<Rule> {
    [DropMatch(V4, SetName(t, V4)), DropMatch(V6, SetName(t, V6))]
  }

  function Declaration(uid: int): seq<Cmd> {
    [AddSet(SetName(OneUser(uid), V4), V4), AddSet(SetName(OneUser(uid), V6), V6)]
  }

  function UserChain(uid: int): seq<Cmd> {
    [AddChain(ChainName(uid), false),
     AddRule(ChainName(uid), DropRules(OneUser(uid))[0]),
     AddRule(ChainName(uid), DropRules(OneUser(uid))[1])]
  }

  function Fill(name: string, addrs: seq<Addr>): seq<Cmd> {
    if |addrs| == 0 then [] else [AddElements(name, addrs)]
  }

  function FillTarget(state: State, t: Target): seq<Cmd> {
    Fill(SetName(t, V4), ListOf(state, t, V4)) + Fill(SetName(t, V6), ListOf(state, t, V6))
  }

  function FillUser(state: State): int -> seq<Cmd> {
    uid => FillTarget(state, OneUser(uid))
  }

  function Entries(uids: seq<int>): seq<(int, string)> {
    if uids == [] then [] else Entries(uids[..|uids| - 1]) + [(uids[|uids| - 1], ChainName(uids[|uids| - 1]))]
  }

  function Dispatch(uids: seq<int>): seq<Cmd> {
    if |uids| == 0 then [] else [AddRule(OUTPUT, UidMap(Entries(uids)))]
  }

  const HEADER := [AddTable, DeleteTable, AddTable, AddSet(SetName(Everyone, V4), V4),
    AddSet(SetName(Everyone, V6), V6)]

  function GlobalRules(): seq<Cmd> {
    [AddRule(OUTPUT, DropRules(Everyone)[0]), AddRule(OUTPUT, DropRules(Everyone)[1])]
  }

  // Sets and chains come first: rules name sets, and jumps name chains.
  function Structure(uids: seq<int>): seq<Cmd> {
    HEADER + Each(uids, Declaration) + [AddChain(OUTPUT, true)] + Each(uids, UserChain)
  }

  function ScriptFor(state: State, uids: seq<int>): seq<Cmd> {
    Structure(uids) + GlobalRules() + Dispatch(uids) + FillTarget(state, Everyone) + Each(uids, FillUser(state))
  }

  ghost function Script(state: State): seq<Cmd> {
    ScriptFor(state, SortedInts(state.perUser.Keys))
  }

  function ElementDelta(name: string, prev: seq<Addr>, next: seq<Addr>): seq<Cmd> {
    var added, removed := Without(next, prev), Without(prev, next);
    Fill(name, added) + (if |removed| > 0 then [DeleteElements(name, removed)] else [])
  }

  function TargetDelta(prev: State, next: State, t: Target): seq<Cmd> {
    ElementDelta(SetName(t, V4), ListOf(prev, t, V4), ListOf(next, t, V4))
    + ElementDelta(SetName(t, V6), ListOf(prev, t, V6), ListOf(next, t, V6))
  }

  function UserDelta(prev: State, next: State): int -> seq<Cmd> {
    uid => TargetDelta(prev, next, OneUser(uid))
  }

  function DeltaFor(prev: State, next: State, uids: seq<int>): seq<Cmd> {
    TargetDelta(prev, next, Everyone) + Each(uids, UserDelta(prev, next))
  }

  ghost function Delta(prev: State, next: State): seq<Cmd> {
    DeltaFor(prev, next, SortedInts(next.perUser.Keys))
  }

  method WriteDeclarations(s: seq<Cmd>, uids: seq<int>) returns (r: seq<Cmd>)
    ensures r == s + Each(uids, Declaration)
  {
    r := s;
    for i := 0 to |uids|
      invariant r == s + Each(uids[..i], Declaration)
    {
      EachNext(s, uids, i, Declaration);
      r := r + [AddSet(SetName(OneUser(uids[i]), V4), V4), AddSet(SetName(OneUser(uids[i]), V6), V6)];
    }
    assert uids[..|uids|] == uids;
  }

  method WriteUserChains(s: seq<Cmd>, uids: seq<int>) returns (r: seq<Cmd>)
    ensures r == s + Each(uids, UserChain)
  {
    r := s;
    for i := 0 to |uids|
      invariant r == s + Each(uids[..i], UserChain)
    {
      EachNext(s, uids, i, UserChain);
      var uid := uids[i];
      r := r + [AddChain(ChainName(uid), false),
                AddRule(ChainName(uid), DropMatch(V4, SetName(OneUser(uid), V4))),
                AddRule(ChainName(uid), DropMatch(V6, SetName(OneUser(uid), V6)))];
    }
    assert uids[..|uids|] == uids;
  }

  method WriteDispatch(s: seq<Cmd>, uids: seq<int>) returns (r: seq<Cmd>)
    ensures r == s + Dispatch(uids)
  {
    r := s;
    if |uids| > 0 {
      var entries := [];
      for i := 0 to |uids|
        invariant entries == Entries(uids[..i])
      {
        entries := entries + [(uids[i], ChainName(uids[i]))];
        assert uids[..i + 1][..i] == uids[..i];
      }
      assert uids[..|uids|] == uids;
      r := r + [AddRule(OUTPUT, UidMap(entries))];
    }
  }

  method WriteElements(s: seq<Cmd>, name: string, addrs: seq<Addr>) returns (r: seq<Cmd>)
    ensures r == s + Fill(name, addrs)
  {
    if |addrs| == 0 {
      return s;
    }
    r := s + [AddElements(name, addrs)];
  }

  method WriteTarget(s: seq<Cmd>, state: State, t: Target) returns (r: seq<Cmd>)
    ensures r == s + FillTarget(state, t)
  {
    r := WriteElements(s, SetName(t, V4), ListOf(state, t, V4));
    r := WriteElements(r, SetName(t, V6), ListOf(state, t, V6));
  }

  method WriteUserElements(s: seq<Cmd>, state: State, uids: seq<int>) returns (r: seq<Cmd>)
    ensures r == s + Each(uids, FillUser(state))
  {
    r := s;
    for i := 0 to |uids|
      invariant r == s + Each(uids[..i], FillUser(state))
    {
      EachNext(s, uids, i, FillUser(state));
      r := WriteTarget(r, state, OneUser(uids[i]));
    }
    assert uids[..|uids|] == uids;
  }

  method BuildScript(state: State) returns (s: seq<Cmd>)
    ensures s == Script(state)
  {
    s := HEADER;
    var uids := SortedUids(state.perUser);
    s := WriteDeclarations(s, uids);
    s := s + [AddChain(OUTPUT, true)];
    s := WriteUserChains(s, uids);
    s := s + GlobalRules();
    s := WriteDispatch(s, uids);
    s := WriteTarget(s, state, Everyone);
    s := WriteUserElements(s, state, uids);
  }

  method WriteElementDelta(s: seq<Cmd>, name: string, prev: seq<Addr>, next: seq<Addr>) returns (r: seq<Cmd>)
    ensures r == s + ElementDelta(name, prev, next)
  {
    var added, removed := DiffStrings(prev, next);
    r := s;
    if |added| > 0 {
      r := r + [AddElements(name, added)];
    }
    if |removed| > 0 {
      r := r + [DeleteElements(name, removed)];
    }
  }

  method WriteTargetDelta(s: seq<Cmd>, prev: State, next: State, t: Target) returns (r: seq<Cmd>)
    ensures r == s + TargetDelta(prev, next, t)
  {
    r := WriteElementDelta(s, SetName(t, V4), ListOf(prev, t, V4), ListOf(next, t, V4));
    r := WriteElementDelta(r, SetName(t, V6), ListOf(prev, t, V6), ListOf(next, t, V6));
  }

  method WriteUserDeltas(s: seq<Cmd>, prev: State, next: State, uids: seq<int>) returns (r: seq<Cmd>)
    ensures r == s + Each(uids, UserDelta(prev, next))
  {
    r := s;
    for i := 0 to |uids|
      invariant r == s + Each(uids[..i], UserDelta(prev, next))
    {
      r := WriteTargetDelta(r, prev, next, OneUser(uids[i]));
      EachNext(s, uids, i, UserDelta(prev, next));
    }
    assert uids[..|uids|] == uids;
  }

  method BuildDelta(prev: State, next: State) returns (s: seq<Cmd>)
    ensures s == Delta(prev, next)
  {
    s := WriteTargetDelta([], prev, next, Everyone);
    var uids := SortedUids(next.perUser);
    s := WriteUserDeltas(s, prev, next, uids);
  }
}
