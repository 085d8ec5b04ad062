/** The desired filtering state and what it means for a packet: the specification both firewall backends must meet. */
module Backend {
  import opened Sorting

  datatype Family = V4 | V6

  // Destination addresses are canonical text, as net.IP.String prints them.
  type Addr = string

  datatype IPSet = IPSet(v4: seq<Addr>, v6: seq<Addr>) {
    predicate Empty() {
      |v4| == 0 && |v6| == 0
    }

    function Of(f: Family): seq<Addr> {
      if f == V4 then v4 else v6
    }
  }

  datatype State = State(global: IPSet, perUser: map<int, IPSet>)

  // An outgoing packet: the uid owning the socket, and the destination.
  datatype Packet = Packet(uid: int, family: Family, dst: Addr)

  // The lists a State is made of: one for everybody, one for each user that has anything to block.
  datatype Target = Everyone | OneUser(uid: int)

  predicate HasTarget(state: State, t: Target) {
    t.OneUser? ==> t.uid in state.perUser
  }

  // Reading a missing key of a Go map gives the zero value, here the empty IPSet.
  function UserSet(m: map<int, IPSet>, uid: int): IPSet {
    if uid in m then m[uid] else IPSet([], [])
  }

  function ListOf(state: State, t: Target, f: Family): seq<Addr> {
    match t
    case Everyone => state.global.Of(f)
    case OneUser(uid) => UserSet(state.perUser, uid).Of(f)
  }

  // The addresses blocked through one list; a list the state does not have blocks nothing.
  function Contents(state: State, t: Target, f: Family): set<Addr> {
    Elements(ListOf(state, t, f))
  }

  predicate SameContents(a: State, b: State, t: Target) {
    Contents(a, t, V4) == Contents(b, t, V4) && Contents(a, t, V6) == Contents(b, t, V6)
  }

  // The specification: a packet is dropped iff the global list or its owner's list names the destination.
  predicate Blocks(state: State, p: Packet) {
    p.dst in Contents(state, Everyone, p.family) || p.dst in Contents(state, OneUser(p.uid), p.family)
  }

  // All user ids fit the kernel's 32 bits. Nothing guarantees it: root may store a list for any Go int.
  predicate UidsInRange(state: State) {
    forall uid :: uid in state.perUser ==> 0 <= uid < 0x1_0000_0000
  }

  // The owner match of iptables ends one earlier.
  predicate OwnersInRange(state: State) {
    forall uid :: uid in state.perUser ==> 0 <= uid < 0xFFFF_FFFF
  }

  // The address of all zeros, which a hash:ip set cannot hold.
  function NullAddr(f: Family): Addr {
    if f == V4 then "0.0.0.0" else "::"
  }

  // No list has it. Nothing guarantees this either: it is an address like any other to all but the sets.
  ghost predicate Holdable(state: State) {
    forall t, f :: NullAddr(f) !in Contents(state, t, f)
  }

  datatype Kind = Nftables | IptablesIpset

  predicate UidFits(kind: Kind, uid: int) {
    0 <= uid < (if kind.Nftables? then 0x1_0000_0000 else 0xFFFF_FFFF)
  }

  // The kernel refuses nothing of the state.
  ghost predicate Loadable(kind: Kind, state: State) {
    if kind.Nftables? then UidsInRange(state) else OwnersInRange(state) && Holdable(state)
  }

  // The lists the engine hands over are the keys of a map, so free of repetitions.
  ghost predicate DistinctLists(state: State) {
    forall t, f :: Distinct(ListOf(state, t, f))
  }

  // The uids of a state, ascending; the order in which a Go map is walked does not show.
  ghost function SortedInts(s: set<int>): (r: seq<int>)
    ensures Ascending(IntLess, r) && Elements(r) == s
  {
    IntLessStrict();
    AscendingOf(IntLess, s)
  }

  method SortInts(s: seq<int>) returns (r: seq<int>)
    requires Distinct(s)
    ensures r == SortedInts(Elements(s))
  {
    IntLessStrict();
    SortOfDistinct(IntLess, s);
    r := Sort(IntLess, s);
  }

  method SortedUids(m: map<int, IPSet>) returns (uids: seq<int>)
    ensures uids == SortedInts(m.Keys)
  {
    uids := [];
    var todo := m.Keys;
    while todo != {}
      invariant todo <= m.Keys
      invariant Distinct(uids) && Elements(uids) == m.Keys - todo
      decreases todo
    {
      var uid := NextOf(todo);
      AppendDistinct(uids, uid);
      uids, todo := uids + [uid], todo - {uid};
    }
    assert m.Keys - todo == m.Keys;
    uids := SortInts(uids);
  }

  // What a loop over the uids appends to a script, given what it appends for one of them.
  function Each<T>(uids: seq<int>, part: int -> seq<T>): seq<T> {
    if uids == [] then [] else Each(uids[..|uids| - 1], part) + part(uids[|uids| - 1])
  }

  lemma EachNext<T>(s: seq<T>, uids: seq<int>, i: nat, part: int -> seq<T>)
    requires i < |uids|
    ensures s + Each(uids[..i + 1], part) == s + Each(uids[..i], part) + part(uids[i])
  {
    assert uids[..i + 1][..i] == uids[..i];
  }

  lemma NoListNoChange(prev: State, next: State)
    requires prev.perUser.Keys == next.perUser.Keys
    ensures forall uid :: uid !in next.perUser ==> SameContents(prev, next, OneUser(uid))
  {
  }

  // Only membership counts: list order and repetitions, and users with nothing to block, change no verdict.
  lemma VerdictIsMembership(a: State, b: State)
    requires forall t, f :: Contents(a, t, f) == Contents(b, t, f)
    ensures forall p :: Blocks(a, p) <==> Blocks(b, p)
  {
  }

  function WithoutEmptyUsers(s: State): State {
    State(s.global, map uid | uid in s.perUser && !s.perUser[uid].Empty() :: s.perUser[uid])
  }

  lemma OmittingEmptyUsers(s: State)
    ensures forall p :: Blocks(s, p) <==> Blocks(WithoutEmptyUsers(s), p)
    ensures forall uid :: uid in WithoutEmptyUsers(s).perUser <==> uid in s.perUser && !s.perUser[uid].Empty()
  {
    var t := WithoutEmptyUsers(s);
    forall target: Target, f: Family
      ensures Contents(s, target, f) == Contents(t, target, f)
    {
    }
    VerdictIsMembership(s, t);
  }
}
