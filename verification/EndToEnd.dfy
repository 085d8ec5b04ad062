/** From the store to packets: the resolver pool, the rebuild protocol and the backends together. */
module EndToEnd {
  import opened Wrappers
  import opened Sorting
  import opened Backend
  import opened Lists
  import opened Engine
  import opened RebuildProtocol
  import opened RebuildSafety
  import opened RebuildTheorems
  import S = Store
  import F = Firewall
  import P = Resolver

  // ---------- Packets ----------

  // Whatever was added, removed and refreshed in whatever order, whichever backend there is and however often its
  // commands failed before: at rest after a successful section, the kernel drops exactly the packets the store blocks.
  lemma FirewallFollowsStore(parse: string -> Parsed, w0: World, labels: seq<Label>, p: Packet)
    requires Initial(w0) && Run(parse, w0, labels)
    requires var w := After(parse, w0, labels); AtRest(w) && w.lastOk
    ensures var w := After(parse, w0, labels); F.Drops(w.firewall, p) <==> StoreBlocks(parse, w, p)
  {
    hide *;
    var w := After(parse, w0, labels);
    FirewallIsKept(parse, w0, labels);
    VerdictsAreCurrent(parse, w0, labels, p);
    F.InSyncMeans(w.firewall, p);
  }

  lemma FirewallIsKept(parse: string -> Parsed, w0: World, labels: seq<Label>)
    requires Initial(w0) && Run(parse, w0, labels)
    ensures var w := After(parse, w0, labels);
            && F.InSync(w.firewall)
            && (F.Last(w.firewall).Some? ==> w.live.Some? && F.Last(w.firewall) == Some(w.live.value.state))
            && (w.lastOk ==> F.Last(w.firewall).Some?)
  {
    hide Inv, Do, Enabled, Run, After, F.InSync, F.Last;
    InitialInv(parse, w0);
    RunKeepsInv(parse, w0, labels);
    InvParts(parse, After(parse, w0, labels));
  }

  // ---------- Success ----------

  // At any point of any run, an Apply that meets no fault succeeds exactly when the backend refuses nothing of the
  // lists that were read: every user with anything to block fits, and, for ipset, no list stands for a null address.
  // If it does refuse something, no Apply succeeds, for all users.
  lemma AppliesSucceedIff(parse: string -> Parsed, w0: World, labels: seq<Label>, l: Label)
    requires Initial(w0) && Run(parse, w0, labels)
    requires Enabled(parse, After(parse, w0, labels), l) && (l.ApplyFast? || l.ApplySlow?)
    ensures var w := After(parse, w0, labels);
            var loads := Loads(F.KindOf(w.firewall), SnapshotOf(w.ops[l.id].pc.reading), w.cache, parse);
            var ok := Do(parse, w, l).lastOk;
            (ok ==> loads) && (F.Faultless(w.firewall, l.state, l.faults) ==> (ok <==> loads))
  {
    hide Run, After, F.Apply, F.Faultless, F.InSync, F.Last, IsStateOf, Wanted, Pruned, Loads, Loadable;
    var w := After(parse, w0, labels);
    var s := SnapshotOf(w.ops[l.id].pc.reading);
    var cache := Pruned(w.cache, Wanted(s));
    FirewallIsKept(parse, w0, labels);
    StateIsDistinct(l.state, s, cache, parse);
    LoadsIff(F.KindOf(w.firewall), l.state, s, cache, parse);
    PruningKeepsLoads(F.KindOf(w.firewall), s, w.cache, parse);
    F.SucceedsIff(w.firewall, l.state, l.faults);
  }

  // A library that takes every text for an IPv4 address.
  function Itself(ip: string): Parsed {
    Canonical(V4, ip)
  }

  // A list for uid 2^32 with a single address: no Apply of a state built from it succeeds, whatever else it holds.
  lemma OneUidStopsAll(fw: F.Firewall, s: Snapshot, state: State, faults: F.Faults)
    requires F.InSync(fw) && s.users == map[0x1_0000_0000 := BlockList([], ["192.0.2.1"])]
    requires IsStateOf(state, s, map[], Itself)
    ensures !F.Apply(fw, state, faults).1
  {
    hide F.Apply, F.InSync, Loadable, IsStateOf;
    OneAddress("192.0.2.1");
    assert !ListLoads(F.KindOf(fw), Some(0x1_0000_0000), s.users[0x1_0000_0000], map[], Itself);
    LoadsIff(F.KindOf(fw), state, s, map[], Itself);
    StateIsDistinct(state, s, map[], Itself);
    F.SucceedsIff(fw, state, faults);
  }

  // What any user may store: with 0.0.0.0 in one list, no Apply of the iptables backend succeeds; with nft it does.
  lemma OneAddressStopsAll(fw: F.Firewall, s: Snapshot, state: State, faults: F.Faults)
    requires F.InSync(fw) && s == Snapshot(EMPTY, map[1000 := BlockList([], ["0.0.0.0"])])
    requires IsStateOf(state, s, map[], Itself)
    ensures fw.Iptables? ==> !F.Apply(fw, state, faults).1
    ensures fw.Nft? && F.Faultless(fw, state, faults) ==> F.Apply(fw, state, faults).1
  {
    hide F.Apply, F.InSync, Loadable, IsStateOf, F.Faultless;
    OneAddress("0.0.0.0");
    assert ListLoads(F.KindOf(fw), Some(1000), s.users[1000], map[], Itself) <==> fw.Nft?;
    LoadsIff(F.KindOf(fw), state, s, map[], Itself);
    StateIsDistinct(state, s, map[], Itself);
    F.SucceedsIff(fw, state, faults);
  }

  lemma OneAddress(ip: string)
    ensures AddressesOf(BlockList([], [ip]), map[], Itself, V4) == {ip}
    ensures AddressesOf(BlockList([], [ip]), map[], Itself, V6) == {}
    ensures forall f :: AddressesOf(EMPTY, map[], Itself, f) == {}
  {
    var bl := BlockList([], [ip]);
    assert ip in bl.ips;
    assert Itself(ip) == Canonical(V4, ip);
  }

  // ---------- Resolution ----------

  // What the worker pool returns for the domains an operation wants resolved is an answer the protocol takes: every
  // wanted domain, and no other, among the resolved or the failed ones, and none among both.
  lemma PoolAnswers(parse: string -> Parsed, w: World, id: nat, domains: seq<string>, concurrency: int,
                    steps: seq<P.Label>)
    requires id in w.ops && w.ops[id].pc.Resolving?
    requires Distinct(domains) && Elements(domains) == w.ops[id].pc.want
    requires P.Run(P.Started(domains, concurrency), steps) && P.After(P.Started(domains, concurrency), steps).returned
    ensures var pool := P.After(P.Started(domains, concurrency), steps);
            Enabled(parse, w, Answers(id, pool.results, pool.failures.Keys))
  {
    hide P.Run, P.After, Distinct;
    P.ExactlyOnce(domains, concurrency, steps);
  }
}
