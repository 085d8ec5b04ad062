/** The engine's resolved-address cache, and how blocklists and cache become the desired firewall state. */
module Engine {
  import opened Wrappers
  import opened Sorting
  import opened Backend
  import opened Lists

  datatype Resolved = Resolved(v4: seq<Addr>, v6: seq<Addr>) {
    function Of(f: Family): seq<Addr> {
      if f == V4 then v4 else v6
    }
  }

  // A resolution and the time it goes stale.
  datatype CacheEntry = CacheEntry(res: Resolved, expires: int)

  type Cache = map<string, CacheEntry>

  // What net.ParseIP, To4 and String make of a stored IP: nothing, or the canonical text of one family.
  datatype Parsed = NotAnIP | Canonical(family: Family, text: Addr)

  // What loadAll returns.
  datatype Snapshot = Snapshot(global: BlockList, users: map<int, BlockList>)

  datatype Mode = ResolveMissing | ResolveExpired | ResolveAll

  // ---------- The specification ----------

  function Wanted(s: Snapshot): set<string> {
    Elements(s.global.domains) + (set uid, d | uid in s.users && d in s.users[uid].domains :: d)
  }

  predicate NeedsResolving(d: string, cache: Cache, mode: Mode, now: int) {
    || d !in cache
    || mode == ResolveAll
    || (mode == ResolveExpired && now > cache[d].expires)
  }

  function ToResolve(wanted: set<string>, cache: Cache, mode: Mode, now: int): set<string> {
    set d | d in wanted && NeedsResolving(d, cache, mode, now)
  }

  function Pruned(cache: Cache, wanted: set<string>): Cache {
    map d | d in cache && d in wanted :: cache[d]
  }

  function Merged(cache: Cache, resolved: map<string, Resolved>, expires: int): Cache {
    cache + map d | d in resolved :: CacheEntry(resolved[d], expires)
  }

  // The addresses one blocklist stands for: its own IPs and the cached addresses of its domains.
  ghost predicate Covers(bl: BlockList, cache: Cache, parse: string -> Parsed, f: Family, a: Addr) {
    || (exists ip :: ip in bl.ips && parse(ip) == Canonical(f, a))
    || (exists d :: d in bl.domains && d in cache && a in cache[d].res.Of(f))
  }

  ghost predicate IsSetOf(set_: IPSet, bl: BlockList, cache: Cache, parse: string -> Parsed) {
    forall f :: Distinct(set_.Of(f)) && forall a :: a in set_.Of(f) <==> Covers(bl, cache, parse, f, a)
  }

  ghost predicate BlocksNothing(bl: BlockList, cache: Cache, parse: string -> Parsed) {
    forall f, a :: !Covers(bl, cache, parse, f, a)
  }

  // The states an engine may build: list order is that of a Go map, and users with nothing to block are omitted.
  ghost predicate IsStateOf(state: State, s: Snapshot, cache: Cache, parse: string -> Parsed) {
    && IsSetOf(state.global, s.global, cache, parse)
    && (forall uid :: uid in state.perUser <==> uid in s.users && !BlocksNothing(s.users[uid], cache, parse))
    && (forall uid :: uid in state.perUser ==> IsSetOf(state.perUser[uid], s.users[uid], cache, parse))
  }

  // What such a state blocks, said without the state: an address of the global list, or of the owner's list. Omitting
  // the users with nothing to block loses nothing.
  lemma StateBlocks(state: State, s: Snapshot, cache: Cache, parse: string -> Parsed, p: Packet)
    requires IsStateOf(state, s, cache, parse)
    ensures Blocks(state, p) <==>
              || Covers(s.global, cache, parse, p.family, p.dst)
              || (p.uid in s.users && Covers(s.users[p.uid], cache, parse, p.family, p.dst))
  {
    hide Covers;
    assert p.dst in Contents(state, Everyone, p.family) <==> Covers(s.global, cache, parse, p.family, p.dst);
    if p.uid in s.users && p.uid !in state.perUser {
      assert BlocksNothing(s.users[p.uid], cache, parse);
    }
  }

  // The addresses one blocklist stands for, as a set.
  function AddressesOf(bl: BlockList, cache: Cache, parse: string -> Parsed, f: Family): set<Addr> {
    (set ip | ip in bl.ips && parse(ip).Canonical? && parse(ip).family == f :: parse(ip).text)
    + (set d, a | d in bl.domains && d in cache && a in cache[d].res.Of(f) :: a)
  }

  lemma AddressesCovered(bl: BlockList, cache: Cache, parse: string -> Parsed)
    ensures forall f, a :: a in AddressesOf(bl, cache, parse, f) <==> Covers(bl, cache, parse, f, a)
    ensures BlocksNothing(bl, cache, parse) <==>
              AddressesOf(bl, cache, parse, V4) == {} && AddressesOf(bl, cache, parse, V6) == {}
  {
    forall f, a ensures a in AddressesOf(bl, cache, parse, f) <==> Covers(bl, cache, parse, f, a) {
      assert forall ip :: parse(ip) == Canonical(f, a) <==>
          parse(ip).Canonical? && parse(ip).family == f && parse(ip).text == a;
    }
    if AddressesOf(bl, cache, parse, V4) == {} && AddressesOf(bl, cache, parse, V6) == {} {
      forall f, a ensures !Covers(bl, cache, parse, f, a) {
        assert f == V4 || f == V6;
        assert a !in AddressesOf(bl, cache, parse, f);
      }
    }
  }

  // The backend refuses nothing of one blocklist: its owner fits if it blocks anything, and, for ipset, no null address
  // is among its addresses.
  predicate ListLoads(kind: Kind, owner: Option<int>, bl: BlockList, cache: Cache, parse: string -> Parsed) {
    var v4, v6 := AddressesOf(bl, cache, parse, V4), AddressesOf(bl, cache, parse, V6);
    && (owner.Some? && (v4 != {} || v6 != {}) ==> UidFits(kind, owner.value))
    && (kind.IptablesIpset? ==> NoNull(bl, cache, parse))
  }

  ghost predicate Loads(kind: Kind, s: Snapshot, cache: Cache, parse: string -> Parsed) {
    && ListLoads(kind, None, s.global, cache, parse)
    && forall uid :: uid in s.users ==> ListLoads(kind, Some(uid), s.users[uid], cache, parse)
  }

  // What a backend refuses can be told from the stored lists and the cache.
  lemma LoadsIff(kind: Kind, state: State, s: Snapshot, cache: Cache, parse: string -> Parsed)
    requires IsStateOf(state, s, cache, parse)
    ensures Loadable(kind, state) <==> Loads(kind, s, cache, parse)
  {
    hide Covers, NullAddr, AddressesOf, BlocksNothing;
    forall bl ensures BlocksNothing(bl, cache, parse) <==>
        AddressesOf(bl, cache, parse, V4) == {} && AddressesOf(bl, cache, parse, V6) == {}
    {
      AddressesCovered(bl, cache, parse);
    }
    forall f ensures Contents(state, Everyone, f) == AddressesOf(s.global, cache, parse, f) {
      SetHolds(state.global, s.global, cache, parse, f);
    }
    forall uid, f | uid in s.users
      ensures Contents(state, OneUser(uid), f) == AddressesOf(s.users[uid], cache, parse, f)
    {
      if uid in state.perUser {
        SetHolds(state.perUser[uid], s.users[uid], cache, parse, f);
      } else {
        assert f == V4 || f == V6;
      }
    }
    if kind.IptablesIpset? {
      HoldableIff(state, s, cache, parse);
    }
  }

  lemma SetHolds(set_: IPSet, bl: BlockList, cache: Cache, parse: string -> Parsed, f: Family)
    requires IsSetOf(set_, bl, cache, parse)
    ensures Elements(set_.Of(f)) == AddressesOf(bl, cache, parse, f)
  {
    hide Covers, AddressesOf;
    AddressesCovered(bl, cache, parse);
  }

  lemma HoldableIff(state: State, s: Snapshot, cache: Cache, parse: string -> Parsed)
    requires forall f :: Contents(state, Everyone, f) == AddressesOf(s.global, cache, parse, f)
    requires forall uid, f :: uid in s.users ==>
               Contents(state, OneUser(uid), f) == AddressesOf(s.users[uid], cache, parse, f)
    requires forall uid :: uid in state.perUser ==> uid in s.users
    ensures Holdable(state) <==>
              && NoNull(s.global, cache, parse)
              && forall uid :: uid in s.users ==> NoNull(s.users[uid], cache, parse)
  {
    hide NullAddr, AddressesOf;
    if NoNull(s.global, cache, parse) && forall uid :: uid in s.users ==> NoNull(s.users[uid], cache, parse) {
      forall t, f ensures NullAddr(f) !in Contents(state, t, f) {
        assert f == V4 || f == V6;
        if t.OneUser? && t.uid in s.users {
          assert NoNull(s.users[t.uid], cache, parse);
        }
      }
    }
  }

  predicate NoNull(bl: BlockList, cache: Cache, parse: string -> Parsed) {
    NullAddr(V4) !in AddressesOf(bl, cache, parse, V4) && NullAddr(V6) !in AddressesOf(bl, cache, parse, V6)
  }

  // Pruning the cache to the wanted domains takes no address from any list.
  lemma PruningKeepsLoads(kind: Kind, s: Snapshot, cache: Cache, parse: string -> Parsed)
    ensures Loads(kind, s, Pruned(cache, Wanted(s)), parse) <==> Loads(kind, s, cache, parse)
  {
    hide Wanted, NullAddr, AddressesOf, Pruned;
    AllWanted(s);
    forall f
      ensures AddressesOf(s.global, Pruned(cache, Wanted(s)), parse, f) == AddressesOf(s.global, cache, parse, f)
    {
      PruningKeepsAddresses(s.global, cache, Wanted(s), parse, f);
    }
    forall uid, f | uid in s.users
      ensures AddressesOf(s.users[uid], Pruned(cache, Wanted(s)), parse, f)
                == AddressesOf(s.users[uid], cache, parse, f)
    {
      PruningKeepsAddresses(s.users[uid], cache, Wanted(s), parse, f);
    }
  }

  lemma PruningKeepsAddresses(bl: BlockList, cache: Cache, wanted: set<string>, parse: string -> Parsed, f: Family)
    requires forall d :: d in bl.domains ==> d in wanted
    ensures AddressesOf(bl, Pruned(cache, wanted), parse, f) == AddressesOf(bl, cache, parse, f)
  {
    var pruned := Pruned(cache, wanted);
    forall d | d in bl.domains ensures (d in pruned <==> d in cache) && (d in cache ==> pruned[d] == cache[d]) {
    }
    AddressesCovered(bl, pruned, parse);
    AddressesCovered(bl, cache, parse);
    forall a ensures Covers(bl, pruned, parse, f, a) <==> Covers(bl, cache, parse, f, a) {
    }
  }

  lemma AllWanted(s: Snapshot)
    ensures forall d :: d in s.global.domains ==> d in Wanted(s)
    ensures forall uid, d :: uid in s.users && d in s.users[uid].domains ==> d in Wanted(s)
  {
  }

  // The lists handed to the backend are free of repetitions.
  lemma StateIsDistinct(state: State, s: Snapshot, cache: Cache, parse: string -> Parsed)
    requires IsStateOf(state, s, cache, parse)
    ensures DistinctLists(state)
  {
    hide Covers;
  }

  // ---------- The code ----------

  class Engine {
    var cache: Cache
    const parse: string -> Parsed

    constructor (parse: string -> Parsed)
      ensures cache == map[] && this.parse == parse
    {
      cache := map[];
      this.parse := parse;
    }

    method WantedDomains(s: Snapshot) returns (wanted: set<string>)
      ensures wanted == Wanted(s)
    {
      wanted := ToSet(s.global.domains);
      var todo := s.users.Keys;
      while todo != {}
        invariant todo <= s.users.Keys
        invariant wanted
               == Elements(s.global.domains)
                  + set uid, d | uid in s.users && uid !in todo && d in s.users[uid].domains :: d
        decreases todo
      {
        var uid := NextOf(todo);
        var domains := ToSet(s.users[uid].domains);
        wanted := wanted + domains;
        todo := todo - {uid};
      }
    }

    // The wanted domains that need resolving, in no particular order.
    method DomainsToResolve(wanted: set<string>, mode: Mode, now: int) returns (out: seq<string>)
      ensures Distinct(out) && Elements(out) == ToResolve(wanted, cache, mode, now)
    {
      out := [];
      var todo := wanted;
      while todo != {}
        invariant todo <= wanted
        invariant Distinct(out) && Elements(out) == ToResolve(wanted - todo, cache, mode, now)
        decreases todo
      {
        var d := NextOf(todo);
        assert wanted - (todo - {d}) == (wanted - todo) + {d};
        if d !in cache || mode == ResolveAll || (mode == ResolveExpired && now > cache[d].expires) {
          assert d !in Elements(out);
          AppendDistinct(out, d);
          out := out + [d];
        }
        todo := todo - {d};
      }
      assert wanted - todo == wanted;
    }

    // Merging the answers of a resolution.
    method MergeResolved(resolved: map<string, Resolved>, expires: int)
      modifies this
      ensures cache == Merged(old(cache), resolved, expires)
    {
      var todo := resolved.Keys;
      ghost var done: set<string> := {};
      while todo != {}
        invariant todo !! done && todo + done == resolved.Keys
        invariant cache == old(cache) + map d | d in done :: CacheEntry(resolved[d], expires)
        decreases todo
      {
        var d := NextOf(todo);
        cache := cache[d := CacheEntry(resolved[d], expires)];
        todo, done := todo - {d}, done + {d};
      }
      assert done == resolved.Keys;
    }

    method PruneCache(wanted: set<string>)
      modifies this
      ensures cache == Pruned(old(cache), wanted)
    {
      var todo := cache.Keys;
      while todo != {}
        invariant todo <= old(cache).Keys
        invariant cache == map d | d in old(cache) && (d in todo || d in wanted) :: old(cache)[d]
        decreases todo
      {
        var d := NextOf(todo);
        todo := todo - {d};
        if d !in wanted {
          cache := cache - {d};
        }
      }
    }

    method KeysOf(m: set<Addr>) returns (out: seq<Addr>)
      ensures Distinct(out) && Elements(out) == m
    {
      out := [];
      var todo := m;
      while todo != {}
        invariant todo <= m && Distinct(out) && Elements(out) == m - todo
        decreases todo
      {
        var a := NextOf(todo);
        AppendDistinct(out, a);
        out, todo := out + [a], todo - {a};
      }
      assert m - todo == m;
    }

    method ParsedIPs(ips: seq<string>) returns (v4: set<Addr>, v6: set<Addr>)
      ensures forall a :: a in v4 <==> exists ip :: ip in ips && parse(ip) == Canonical(V4, a)
      ensures forall a :: a in v6 <==> exists ip :: ip in ips && parse(ip) == Canonical(V6, a)
    {
      v4, v6 := {}, {};
      for i := 0 to |ips|
        invariant forall a :: a in v4 <==> exists ip :: ip in ips[..i] && parse(ip) == Canonical(V4, a)
        invariant forall a :: a in v6 <==> exists ip :: ip in ips[..i] && parse(ip) == Canonical(V6, a)
      {
        assert ips[..i + 1] == ips[..i] + [ips[i]];
        var parsed := parse(ips[i]);
        if parsed.Canonical? {
          if parsed.family == V4 {
            v4 := v4 + {parsed.text};
          } else {
            v6 := v6 + {parsed.text};
          }
        }
      }
      assert ips[..|ips|] == ips;
    }

    method CachedAddrs(domains: seq<string>) returns (v4: set<Addr>, v6: set<Addr>)
      ensures forall a :: a in v4 <==> exists d :: d in domains && d in cache && a in cache[d].res.Of(V4)
      ensures forall a :: a in v6 <==> exists d :: d in domains && d in cache && a in cache[d].res.Of(V6)
    {
      v4, v6 := {}, {};
      for i := 0 to |domains|
        invariant forall a :: a in v4 <==> exists d :: d in domains[..i] && d in cache && a in cache[d].res.Of(V4)
        invariant forall a :: a in v6 <==> exists d :: d in domains[..i] && d in cache && a in cache[d].res.Of(V6)
      {
        assert domains[..i + 1] == domains[..i] + [domains[i]];
        if domains[i] in cache {
          var more4 := ToSet(cache[domains[i]].res.v4);
          var more6 := ToSet(cache[domains[i]].res.v6);
          v4, v6 := v4 + more4, v6 + more6;
        }
      }
      assert domains[..|domains|] == domains;
    }

    method IpSetFor(bl: BlockList) returns (r: IPSet)
      ensures IsSetOf(r, bl, cache, parse)
    {
      var own4, own6 := ParsedIPs(bl.ips);
      var dns4, dns6 := CachedAddrs(bl.domains);
      var v4 := KeysOf(own4 + dns4);
      var v6 := KeysOf(own6 + dns6);
      r := IPSet(v4, v6);
      forall f ensures Distinct(r.Of(f)) && forall a :: a in r.Of(f) <==> Covers(bl, cache, parse, f, a) {
        assert forall a :: a in r.Of(f) <==> a in Elements(r.Of(f));
        assert f == V4 || f == V6;
      }
    }

    // The state of buildAndApplyLocked, with the cache pruned to what it uses.
    method PruneAndBuild(s: Snapshot) returns (state: State)
      modifies this
      ensures cache == Pruned(old(cache), Wanted(s))
      ensures IsStateOf(state, s, cache, parse)
    {
      hide IsSetOf, Covers, BlocksNothing;
      var wanted := WantedDomains(s);
      PruneCache(wanted);
      var global := IpSetFor(s.global);
      var perUser: map<int, IPSet> := map[];
      var todo := s.users.Keys;
      while todo != {}
        invariant todo <= s.users.Keys && perUser.Keys <= s.users.Keys - todo
        invariant cache == Pruned(old(cache), Wanted(s)) && IsSetOf(global, s.global, cache, parse)
        invariant forall uid :: uid in s.users && uid !in todo ==>
                  (uid in perUser <==> !BlocksNothing(s.users[uid], cache, parse))
        invariant forall uid :: uid in perUser ==> IsSetOf(perUser[uid], s.users[uid], cache, parse)
        decreases todo
      {
        var uid := NextOf(todo);
        var ips := IpSetFor(s.users[uid]);
        EmptySetBlocksNothing(ips, s.users[uid], cache, parse);
        if !ips.Empty() {
          perUser := perUser[uid := ips];
        }
        todo := todo - {uid};
      }
      state := State(global, perUser);
    }
  }

  lemma EmptySetBlocksNothing(set_: IPSet, bl: BlockList, cache: Cache, parse: string -> Parsed)
    requires IsSetOf(set_, bl, cache, parse)
    ensures set_.Empty() <==> BlocksNothing(bl, cache, parse)
  {
    hide Covers;
    if !set_.Empty() {
      var f := if |set_.v4| > 0 then V4 else V6;
      assert set_.Of(f)[0] in set_.Of(f);
    } else {
      forall f, a ensures !Covers(bl, cache, parse, f, a) {
        assert a !in set_.Of(f);
      }
    }
  }
}
