/** The part of nftables the backend talks to: typed commands, `nft -f` as one transaction, and packet verdicts. */
module NftKernel {
  import opened Wrappers
  import opened Sorting
  import opened Backend

  datatype Rule =
    | DropMatch(family: Family, setName: string)     // ip/ip6 daddr @set drop
    | UidMap(entries: seq<(int, string)>)            // meta skuid vmap { uid : jump chain, ... }

  datatype Chain = Chain(hooked: bool, rules: seq<Rule>)

  datatype ElementSet = ElementSet(family: Family, elements: set<Addr>)

  datatype Table = Table(sets: map<string, ElementSet>, chains: map<string, Chain>)

  // Every command names the table "inet webblock", so that table is all of the ruleset a script can reach.
  datatype Ruleset = NoTable | HasTable(table: Table)

  datatype Cmd =
    | AddTable
    | DeleteTable
    | AddSet(name: string, family: Family)
    | AddChain(name: string, hooked: bool)
    | AddRule(chain: string, rule: Rule)
    | AddElements(name: string, addrs: seq<Addr>)
    | DeleteElements(name: string, addrs: seq<Addr>)

  predicate DistinctUids(entries: seq<(int, string)>) {
    forall i, j :: 0 <= i < j < |entries| ==> entries[i].0 != entries[j].0
  }

  // A rule is accepted when the set it names exists with the right type; a verdict map must list at least one uid,
  // each once and within 32 bits, and jump to existing chains that are not hooks.
  predicate RuleAccepted(t: Table, r: Rule) {
    match r
    case DropMatch(f, s) => s in t.sets && t.sets[s].family == f
    case UidMap(entries) =>
      && entries != [] && DistinctUids(entries)
      && forall i :: 0 <= i < |entries| ==>
           && 0 <= entries[i].0 < 0x1_0000_0000
           && entries[i].1 in t.chains && !t.chains[entries[i].1].hooked
  }

  // add is idempotent, delete is not; an empty element list is a syntax error.
  function ExecInTable(c: Cmd, t: Table): Option<Ruleset>
    requires !c.AddTable? && !c.DeleteTable?
  {
    match c
    case AddSet(n, f) =>
      if n !in t.sets then Some(HasTable(t.(sets := t.sets[n := ElementSet(f, {})])))
      else if t.sets[n].family == f then Some(HasTable(t)) else None
    case AddChain(n, h) =>
      if n !in t.chains then Some(HasTable(t.(chains := t.chains[n := Chain(h, [])])))
      else if t.chains[n].hooked == h then Some(HasTable(t)) else None
    case AddRule(n, r) =>
      if n !in t.chains || !RuleAccepted(t, r) then None
      else Some(HasTable(t.(chains := t.chains[n := t.chains[n].(rules := t.chains[n].rules + [r])])))
    case AddElements(n, addrs) =>
      if n !in t.sets || addrs == [] then None
      else Some(HasTable(WithElements(t, n, t.sets[n].elements + Elements(addrs))))
    case DeleteElements(n, addrs) =>
      if n !in t.sets || addrs == [] || |Elements(addrs)| != |addrs|
        || !(Elements(addrs) <= t.sets[n].elements) then None
      else Some(HasTable(WithElements(t, n, t.sets[n].elements - Elements(addrs))))
  }

  function WithElements(t: Table, n: string, elements: set<Addr>): Table
    requires n in t.sets
  {
    t.(sets := t.sets[n := t.sets[n].(elements := elements)])
  }

  function Exec(c: Cmd, rs: Ruleset): Option<Ruleset> {
    match c
    case AddTable => Some(if rs.NoTable? then HasTable(Table(map[], map[])) else rs)
    case DeleteTable => if rs.NoTable? then None else Some(NoTable)
    case _ => if rs.NoTable? then None else ExecInTable(c, rs.table)
  }

  // One `nft -f` transaction: None means that some command was refused and nothing was committed.
  function Run(script: seq<Cmd>, rs: Ruleset): Option<Ruleset> {
    if script == [] then Some(rs)
    else
      match Exec(script[0], rs)
      case None => None
      case Some(next) => Run(script[1..], next)
  }

  function Then(r: Option<Ruleset>, script: seq<Cmd>): Option<Ruleset> {
    if r.None? then None else Run(script, r.value)
  }

  lemma {:induction false} RunAppend(a: seq<Cmd>, b: seq<Cmd>, rs: Ruleset)
    ensures Run(a + b, rs) == Then(Run(a, rs), b)
  {
    if a == [] {
      assert a + b == b;
    } else {
      assert (a + b)[1..] == a[1..] + b;
      match Exec(a[0], rs)
      case None =>
      case Some(next) => RunAppend(a[1..], b, next);
    }
  }

  datatype Verdict = Drop | Continue

  const MAX_JUMPS := 16 // NFT_JUMP_STACK_SIZE

  // The jump target of the first entry for a uid.
  function JumpFor(entries: seq<(int, string)>, uid: int): Option<string> {
    if entries == [] then None
    else if entries[0].0 == uid then Some(entries[0].1)
    else JumpFor(entries[1..], uid)
  }

  function EvalRules(t: Table, rules: seq<Rule>, p: Packet, jumps: nat): Verdict
    decreases jumps, rules, 0
  {
    if rules == [] then Continue
    else
      match rules[0]
      case DropMatch(f, s) =>
        if p.family == f && s in t.sets && p.dst in t.sets[s].elements then Drop
        else EvalRules(t, rules[1..], p, jumps)
      case UidMap(entries) =>
        var target := JumpFor(entries, p.uid);
        if target.None? then EvalRules(t, rules[1..], p, jumps)
        else if jumps == 0 then Drop
        else if EvalChain(t, target.value, p, jumps - 1) == Drop then Drop
        else EvalRules(t, rules[1..], p, jumps)
  }

  function EvalChain(t: Table, chain: string, p: Packet, jumps: nat): Verdict
    decreases jumps, if chain in t.chains then t.chains[chain].rules else [], 1
  {
    if chain in t.chains then EvalRules(t, t.chains[chain].rules, p, jumps) else Continue
  }

  // Only hooked chains see packets, each of them; reaching the end of one is its policy, accept.
  ghost predicate Drops(rs: Ruleset, p: Packet) {
    rs.HasTable? && exists c ::
      c in rs.table.chains && rs.table.chains[c].hooked && EvalChain(rs.table, c, p, MAX_JUMPS) == Drop
  }
}
