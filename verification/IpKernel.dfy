/** The part of ipset and iptables the backend talks to: typed commands, runs that may stop anywhere, and verdicts. */
module IpKernel {
  import opened Wrappers
  import opened Sorting
  import opened Backend

  datatype IpSet = IpSet(family: Family, elements: set<Addr>)

  // -A WEBBLOCK [-m owner --uid-owner uid] -m set --match-set name dst -j DROP
  datatype Rule = Rule(owner: Option<int>, setName: string)

  // A rule of OUTPUT: our jump, or somebody else's.
  datatype OutputRule = Jump | Foreign(text: string)

  // OUTPUT and, once created, WEBBLOCK in the filter table of one family.
  datatype Filter = Filter(output: seq<OutputRule>, chain: Option<seq<Rule>>)

  datatype Kernel = Kernel(sets: map<string, IpSet>, filter4: Filter, filter6: Filter) {
    function FilterOf(f: Family): Filter {
      if f == V4 then filter4 else filter6
    }

    function WithFilter(f: Family, filter: Filter): Kernel {
      if f == V4 then this.(filter4 := filter) else this.(filter6 := filter)
    }
  }

  // A line of an `ipset restore` payload.
  datatype Line =
    | Create(name: string, family: Family) // always with -exist
    | Flush(name: string)
    | Add(name: string, addr: Addr)
    | Del(name: string, addr: Addr)
    | Swap(name: string, other: string)
    | Destroy(name: string)

  predicate References(rules: Option<seq<Rule>>, name: string) {
    rules.Some? && exists i :: 0 <= i < |rules.value| && rules.value[i].setName == name
  }

  predicate InUse(k: Kernel, name: string) {
    References(k.filter4.chain, name) || References(k.filter6.chain, name)
  }

  function WithSet(k: Kernel, name: string, s: IpSet): Kernel {
    k.(sets := k.sets[name := s])
  }

  // One line; exist is the -exist option of the whole restore, which forgives adding twice and deleting nothing, but
  // not the null address of the set's family.
  function ExecLine(l: Line, exist: bool, k: Kernel): Option<Kernel> {
    match l
    case Create(n, f) =>
      if n !in k.sets then Some(WithSet(k, n, IpSet(f, {})))
      else if k.sets[n].family == f then Some(k) else None
    case Flush(n) =>
      if n !in k.sets then None else Some(WithSet(k, n, k.sets[n].(elements := {})))
    case Add(n, a) =>
      if n !in k.sets || a == NullAddr(k.sets[n].family) || (a in k.sets[n].elements && !exist) then None
      else Some(WithSet(k, n, k.sets[n].(elements := k.sets[n].elements + {a})))
    case Del(n, a) =>
      if n !in k.sets || a == NullAddr(k.sets[n].family) || (a !in k.sets[n].elements && !exist) then None
      else Some(WithSet(k, n, k.sets[n].(elements := k.sets[n].elements - {a})))
    case Swap(n, m) =>
      if n !in k.sets || m !in k.sets || k.sets[n].family != k.sets[m].family then None
      else Some(k.(sets := k.sets[n := k.sets[m]][m := k.sets[n]]))
    case Destroy(n) =>
      if n !in k.sets || InUse(k, n) then None else Some(k.(sets := k.sets - {n}))
  }

  // What happens one after the other in the kernel. Every payload line takes effect by itself; an iptables-restore
  // is a single commit; Hook is `-C OUTPUT` followed, when that fails, by `-I OUTPUT 1`.
  datatype Step =
    | SetLine(line: Line, exist: bool)
    | Restore(family: Family, rules: seq<Rule>)
    | Hook(family: Family)

  // The owner match takes uids up to 2^32 - 2.
  predicate RulesAccepted(k: Kernel, rules: seq<Rule>) {
    forall i :: 0 <= i < |rules| ==>
                  && rules[i].setName in k.sets
                  && (rules[i].owner.Some? ==> 0 <= rules[i].owner.value < 0xFFFF_FFFF)
  }

  // lies holds the families whose `-C` fails although the jump is there.
  function ExecStep(s: Step, lies: set<Family>, k: Kernel): Option<Kernel> {
    match s
    case SetLine(l, exist) => ExecLine(l, exist, k)
    case Restore(f, rules) =>
      if RulesAccepted(k, rules) then Some(k.WithFilter(f, k.FilterOf(f).(chain := Some(rules)))) else None
    case Hook(f) =>
      var filter := k.FilterOf(f);
      if Jump in filter.output && f !in lies then Some(k)
      else if filter.chain.None? then None
      else Some(k.WithFilter(f, filter.(output := [Jump] + filter.output)))
  }

  // At most n steps happen: the next one fails, or the daemon dies there. The flag tells whether all were done.
  function RunSteps(steps: seq<Step>, n: nat, lies: set<Family>, k: Kernel): (Kernel, bool) {
    if steps == [] then (k, true)
    else if n == 0 then (k, false)
    else
      match ExecStep(steps[0], lies, k)
      case None => (k, false)
      case Some(next) => RunSteps(steps[1..], n - 1, lies, next)
  }

  lemma {:induction false} RunStepsAppend(a: seq<Step>, b: seq<Step>, n: nat, lies: set<Family>, k: Kernel)
    ensures RunSteps(a + b, n, lies, k)
         == var r := RunSteps(a, n, lies, k); if r.1 && n >= |a| then RunSteps(b, n - |a|, lies, r.0) else r
    ensures RunSteps(a, n, lies, k).1 ==> n >= |a|
  {
    if a == [] {
      assert a + b == b;
    } else if n > 0 {
      assert (a + b)[1..] == a[1..] + b;
      match ExecStep(a[0], lies, k)
      case None =>
      case Some(next) => RunStepsAppend(a[1..], b, n - 1, lies, next);
    }
  }

  // WEBBLOCK drops a packet when some rule matches it: DROP is its only target, so the order does not matter.
  predicate Matches(k: Kernel, r: Rule, p: Packet) {
    && (r.owner.Some? ==> r.owner.value == p.uid)
    && r.setName in k.sets && k.sets[r.setName].family == p.family && p.dst in k.sets[r.setName].elements
  }

  predicate ChainDrops(k: Kernel, rules: seq<Rule>, p: Packet) {
    exists i :: 0 <= i < |rules| && Matches(k, rules[i], p)
  }

  // What our rules do: other people's rules in OUTPUT are taken not to decide the packet.
  predicate Drops(k: Kernel, p: Packet) {
    var filter := k.FilterOf(p.family);
    Jump in filter.output && filter.chain.Some? && ChainDrops(k, filter.chain.value, p)
  }

  function Jumps(output: seq<OutputRule>): nat {
    if output == [] then 0 else (if output[0] == Jump then 1 else 0) + Jumps(output[1..])
  }
}
