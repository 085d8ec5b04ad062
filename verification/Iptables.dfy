/** The iptables + ipset backend: set names, payloads and chain rules. */
module Iptables {
  import opened Wrappers
  import opened Decimal
  import opened Sorting
  import opened Backend
  import opened Diff
  import opened IpKernel

  const SET_PREFIX := "webblk_"
  const MAX_SET_NAME := 31

  function Token(t: Target): string {
    match t
    case Everyone => "g"
    case OneUser(uid) => "u" + Itoa(uid)
  }

  function Suffix(f: Family): char {
    if f == V4 then '4' else '6'
  }

  function SetName(t: Target, f: Family): string {
    SET_PREFIX + Token(t) + "_" + [Suffix(f)]
  }

  function TmpName(t: Target, f: Family): string {
    SetName(t, f) + "_t"
  }

  lemma TokenInjective(t: Target, t': Target)
    requires Token(t) == Token(t')
    ensures t == t'
  {
    assert Token(t)[0] == if t.Everyone? then 'g' else 'u';
    assert Token(t')[0] == if t'.Everyone? then 'g' else 'u';
    if t.OneUser? {
      assert Token(t)[1..] == Itoa(t.uid) && Token(t')[1..] == Itoa(t'.uid);
      ItoaInjective(t.uid, t'.uid);
    }
  }

  lemma SetNameParts(t: Target, f: Family)
    ensures var n := SetName(t, f); |n| >= 9 && n[7..|n| - 2] == Token(t) && n[|n| - 1] == Suffix(f)
    ensures var n := TmpName(t, f); n[..|n| - 2] == SetName(t, f) && n[|n| - 1] == 't'
  {
    hide Token;
  }

  // Different lists have different sets, and no temporary set is the set of any list.
  lemma SetNameInjective(t: Target, f: Family, t': Target, f': Family)
    ensures SetName(t, f) == SetName(t', f') ==> t == t' && f == f'
    ensures TmpName(t, f) == TmpName(t', f') ==> t == t' && f == f'
    ensures SetName(t, f) != TmpName(t', f')
  {
    hide SetName, TmpName, Token;
    SetNameParts(t, f);
    SetNameParts(t', f');
    if Token(t) == Token(t') {
      TokenInjective(t, t');
    }
  }

  // All names fit ipset's limit exactly when the decimal text of the uid has at most 19 characters.
  lemma NamesFit(uid: int, f: Family)
    ensures |SetName(Everyone, f)| <= MAX_SET_NAME && |TmpName(Everyone, f)| <= MAX_SET_NAME
    ensures |SetName(OneUser(uid), f)| <= MAX_SET_NAME && |TmpName(OneUser(uid), f)| <= MAX_SET_NAME <==>
              |Itoa(uid)| <= 19
    ensures 0 <= uid < 0x1_0000_0000 ==> |Itoa(uid)| <= 10
  {
    if 0 <= uid < 0x1_0000_0000 {
      PowersOfTen();
      DecimalLength(uid, 10);
    }
  }

  lemma PowersOfTen()
    ensures Pow10(10) == 10_000_000_000
  {
    assert Pow10(3) == 1000;
    assert Pow10(6) == 1_000_000;
    assert Pow10(9) == 1_000_000_000;
  }

  // ---------- Payloads ----------

  function AddLines(name: string, addrs: seq<Addr>): seq<Line> {
    if addrs == [] then [] else AddLines(name, addrs[..|addrs| - 1]) + [Add(name, addrs[|addrs| - 1])]
  }

  function DelLines(name: string, addrs: seq<Addr>): seq<Line> {
    if addrs == [] then [] else DelLines(name, addrs[..|addrs| - 1]) + [Del(name, addrs[|addrs| - 1])]
  }

  // create, create the temporary, flush it, fill it, swap it in, destroy what is left.
  function SetRefresh(t: Target, f: Family, addrs: seq<Addr>): seq<Line> {
    [Create(SetName(t, f), f), Create(TmpName(t, f), f), Flush(TmpName(t, f))]
    + AddLines(TmpName(t, f), addrs)
    + [Swap(SetName(t, f), TmpName(t, f)), Destroy(TmpName(t, f))]
  }

  function TargetRefresh(state: State, t: Target): seq<Line> {
    SetRefresh(t, V4, ListOf(state, t, V4)) + SetRefresh(t, V6, ListOf(state, t, V6))
  }

  function UserRefresh(state: State): int -> seq<Line> {
    uid => TargetRefresh(state, OneUser(uid))
  }

  function RefreshLines(state: State, uids: seq<int>): seq<Line> {
    TargetRefresh(state, Everyone) + Each(uids, UserRefresh(state))
  }

  function SetDelta(t: Target, f: Family, prev: seq<Addr>, next: seq<Addr>): seq<Line> {
    AddLines(SetName(t, f), Without(next, prev)) + DelLines(SetName(t, f), Without(prev, next))
  }

  function TargetDelta(prev: State, next: State, t: Target): seq<Line> {
    SetDelta(t, V4, ListOf(prev, t, V4), ListOf(next, t, V4))
      + SetDelta(t, V6, ListOf(prev, t, V6), ListOf(next, t, V6))
  }

  function UserDelta(prev: State, next: State): int -> seq<Line> {
    uid => TargetDelta(prev, next, OneUser(uid))
  }

  function DeltaLines(prev: State, next: State, uids: seq<int>): seq<Line> {
    TargetDelta(prev, next, Everyone) + Each(uids, UserDelta(prev, next))
  }

  function RuleFor(t: Target, f: Family): Rule {
    Rule(if t.OneUser? then Some(t.uid) else None, SetName(t, f))
  }

  function UserRules(uids: seq<int>, f: Family): seq<Rule> {
    if uids == [] then [] else UserRules(uids[..|uids| - 1], f) + [RuleFor(OneUser(uids[|uids| - 1]), f)]
  }

  function ChainRules(uids: seq<int>, f: Family): seq<Rule> {
    [RuleFor(Everyone, f)] + UserRules(uids, f)
  }

  method WriteAddLines(s: seq<Line>, name: string, addrs: seq<Addr>) returns (r: seq<Line>)
    ensures r == s + AddLines(name, addrs)
  {
    r := s;
    for i := 0 to |addrs|
      invariant r == s + AddLines(name, addrs[..i])
    {
      assert addrs[..i + 1][..i] == addrs[..i];
      r := r + [Add(name, addrs[i])];
    }
    assert addrs[..|addrs|] == addrs;
  }

  method WriteDelLines(s: seq<Line>, name: string, addrs: seq<Addr>) returns (r: seq<Line>)
    ensures r == s + DelLines(name, addrs)
  {
    r := s;
    for i := 0 to |addrs|
      invariant r == s + DelLines(name, addrs[..i])
    {
      assert addrs[..i + 1][..i] == addrs[..i];
      r := r + [Del(name, addrs[i])];
    }
    assert addrs[..|addrs|] == addrs;
  }

  method WriteSetRefresh(s: seq<Line>, t: Target, f: Family, addrs: seq<Addr>) returns (r: seq<Line>)
    ensures r == s + SetRefresh(t, f, addrs)
  {
    hide SetName, TmpName;
    var name, tmp := SetName(t, f), TmpName(t, f);
    r := s + [Create(name, f), Create(tmp, f), Flush(tmp)];
    r := WriteAddLines(r, tmp, addrs);
    r := r + [Swap(name, tmp), Destroy(tmp)];
  }

  method WriteTargetRefresh(s: seq<Line>, state: State, t: Target) returns (r: seq<Line>)
    ensures r == s + TargetRefresh(state, t)
  {
    hide SetRefresh;
    r := WriteSetRefresh(s, t, V4, ListOf(state, t, V4));
    r := WriteSetRefresh(r, t, V6, ListOf(state, t, V6));
  }

  // The payload of refreshAllSets.
  method BuildRefresh(state: State, uids: seq<int>) returns (r: seq<Line>)
    ensures r == RefreshLines(state, uids)
  {
    hide TargetRefresh;
    ghost var first := TargetRefresh(state, Everyone);
    r := WriteTargetRefresh([], state, Everyone);
    for i := 0 to |uids|
      invariant r == first + Each(uids[..i], UserRefresh(state))
    {
      r := WriteTargetRefresh(r, state, OneUser(uids[i]));
      EachNext(first, uids, i, UserRefresh(state));
    }
    assert uids[..|uids|] == uids;
  }

  method WriteSetElemDelta(s: seq<Line>, t: Target, f: Family, prev: seq<Addr>, next: seq<Addr>) returns (r: seq<Line>)
    ensures r == s + SetDelta(t, f, prev, next)
  {
    hide SetName;
    var name := SetName(t, f);
    var added, removed := DiffStrings(prev, next);
    r := WriteAddLines(s, name, added);
    r := WriteDelLines(r, name, removed);
  }

  method WriteTargetDelta(s: seq<Line>, prev: State, next: State, t: Target) returns (r: seq<Line>)
    ensures r == s + TargetDelta(prev, next, t)
  {
    hide SetDelta;
    r := WriteSetElemDelta(s, t, V4, ListOf(prev, t, V4), ListOf(next, t, V4));
    r := WriteSetElemDelta(r, t, V6, ListOf(prev, t, V6), ListOf(next, t, V6));
  }

  method BuildSetDelta(prev: State, next: State, uids: seq<int>) returns (r: seq<Line>)
    ensures r == DeltaLines(prev, next, uids)
  {
    hide TargetDelta;
    ghost var first := TargetDelta(prev, next, Everyone);
    r := WriteTargetDelta([], prev, next, Everyone);
    for i := 0 to |uids|
      invariant r == first + Each(uids[..i], UserDelta(prev, next))
    {
      r := WriteTargetDelta(r, prev, next, OneUser(uids[i]));
      EachNext(first, uids, i, UserDelta(prev, next));
    }
    assert uids[..|uids|] == uids;
  }

  // The rules rebuildChain restores into WEBBLOCK.
  method BuildChain(f: Family, uids: seq<int>) returns (r: seq<Rule>)
    ensures r == ChainRules(uids, f)
  {
    r := [RuleFor(Everyone, f)];
    for i := 0 to |uids|
      invariant r == [RuleFor(Everyone, f)] + UserRules(uids[..i], f)
    {
      assert uids[..i + 1][..i] == uids[..i];
      r := r + [RuleFor(OneUser(uids[i]), f)];
    }
    assert uids[..|uids|] == uids;
  }
}
