/** The delta between the last applied state and the next one, and the deep copy that keeps the last one. */
module Diff {
  import opened Sorting
  import opened Backend

  // The elements of s that are not in other, in order.
  function Without(s: seq<Addr>, other: seq<Addr>): (r: seq<Addr>)
    ensures forall x :: x in r <==> x in s && x !in other
  {
    if s == [] then []
    else
      var r := Without(s[..|s| - 1], other) + (if s[|s| - 1] in other then [] else [s[|s| - 1]]);
      assert s == s[..|s| - 1] + [s[|s| - 1]];
      r
  }

  lemma {:induction false} WithoutDistinct(s: seq<Addr>, other: seq<Addr>)
    requires Distinct(s)
    ensures Distinct(Without(s, other))
  {
    if s != [] {
      var init, last := s[..|s| - 1], s[|s| - 1];
      WithoutDistinct(init, other);
      assert last !in init;
      assert last !in Without(init, other);
    }
  }

  method DiffStrings(prev: seq<Addr>, next: seq<Addr>) returns (added: seq<Addr>, removed: seq<Addr>)
    ensures added == Without(next, prev) && removed == Without(prev, next)
    ensures Elements(added) !! Elements(removed)
    ensures (Elements(prev) + Elements(added)) - Elements(removed) == Elements(next)
    ensures added == [] && removed == [] <==> Elements(prev) == Elements(next)
  {
    var prevSet := ToSet(prev);
    var nextSet := ToSet(next);
    added := [];
    for i := 0 to |next|
      invariant added == Without(next[..i], prev)
    {
      assert next[..i + 1][..i] == next[..i];
      if next[i] !in prevSet {
        added := added + [next[i]];
      }
    }
    assert next[..|next|] == next;
    removed := [];
    for i := 0 to |prev|
      invariant removed == Without(prev[..i], next)
    {
      assert prev[..i + 1][..i] == prev[..i];
      if prev[i] !in nextSet {
        removed := removed + [prev[i]];
      }
    }
    assert prev[..|prev|] == prev;
    DeltaOfLists(prev, next);
  }

  lemma DeltaOfLists(prev: seq<Addr>, next: seq<Addr>)
    ensures var added, removed := Without(next, prev), Without(prev, next);
            && Elements(added) !! Elements(removed)
            && (Elements(prev) + Elements(added)) - Elements(removed) == Elements(next)
            && (added == [] && removed == [] <==> Elements(prev) == Elements(next))
  {
    var added, removed := Without(next, prev), Without(prev, next);
    assert added == [] || added[0] in Elements(next) - Elements(prev);
    assert removed == [] || removed[0] in Elements(prev) - Elements(next);
    assert Elements(next) - Elements(prev) == Elements(added);
    assert Elements(prev) - Elements(next) == Elements(removed);
  }

  // Equal sizes and inclusion one way: the two maps have the same keys.
  method SameUids(a: map<int, IPSet>, b: map<int, IPSet>) returns (same: bool)
    ensures same <==> a.Keys == b.Keys
  {
    if |a| != |b| {
      assert |a.Keys| != |b.Keys|;
      return false;
    }
    var todo := a.Keys;
    while todo != {}
      invariant todo <= a.Keys
      invariant a.Keys - todo <= b.Keys
      decreases todo
    {
      var uid := NextOf(todo);
      if uid !in b {
        assert uid in a.Keys && uid !in b.Keys;
        return false;
      }
      todo := todo - {uid};
    }
    SubsetOfSameSize(a.Keys, b.Keys);
    return true;
  }

  lemma SubsetOfSameSize(a: set<int>, b: set<int>)
    requires a <= b && |a| == |b|
    ensures a == b
  {
    assert |b - a| == |b| - |a|;
  }

  // Go's State shares its slices and its map with whoever built it; these references model that sharing.
  datatype IPSetRef = IPSetRef(v4: array<Addr>, v6: array<Addr>)

  class StateRef {
    var global: IPSetRef
    var perUser: map<int, IPSetRef>

    constructor (global: IPSetRef, perUser: map<int, IPSetRef>)
      ensures this.global == global && this.perUser == perUser
    {
      this.global, this.perUser := global, perUser;
    }

    ghost function Slices(): set<object>
      reads this
    {
      {global.v4, global.v6} + (set uid | uid in perUser :: perUser[uid].v4)
        + (set uid | uid in perUser :: perUser[uid].v6)
    }

    function Value(): State
      reads this, Slices()
    {
      State(IPSet(global.v4[..], global.v6[..]),
            map uid | uid in perUser :: IPSet(perUser[uid].v4[..], perUser[uid].v6[..]))
    }
  }

  method CloneSlice(a: array<Addr>) returns (b: array<Addr>)
    ensures fresh(b) && b[..] == a[..]
  {
    b := new Addr[a.Length](i requires 0 <= i < a.Length reads a => a[i]);
  }

  method CloneIPSet(s: IPSetRef) returns (r: IPSetRef)
    ensures fresh(r.v4) && fresh(r.v6)
    ensures r.v4[..] == s.v4[..] && r.v6[..] == s.v6[..]
  {
    var v4 := CloneSlice(s.v4);
    var v6 := CloneSlice(s.v6);
    r := IPSetRef(v4, v6);
  }

  method CloneUsers(m: map<int, IPSetRef>) returns (r: map<int, IPSetRef>)
    ensures r.Keys == m.Keys
    ensures forall uid :: uid in r ==> fresh(r[uid].v4) && fresh(r[uid].v6)
    ensures forall uid :: uid in r ==> r[uid].v4[..] == m[uid].v4[..] && r[uid].v6[..] == m[uid].v6[..]
  {
    r := map[];
    var todo := m.Keys;
    while todo != {}
      invariant todo <= m.Keys && r.Keys == m.Keys - todo
      invariant forall uid :: uid in r ==> fresh(r[uid].v4) && fresh(r[uid].v6)
      invariant forall uid :: uid in r ==> r[uid].v4[..] == m[uid].v4[..] && r[uid].v6[..] == m[uid].v6[..]
      decreases todo
    {
      var uid := NextOf(todo);
      var copy := CloneIPSet(m[uid]);
      r := r[uid := copy];
      todo := todo - {uid};
    }
  }

  // The copy has the same value and shares no slice with the original.
  method CloneState(s: StateRef) returns (out: StateRef)
    ensures fresh(out) && fresh(out.Slices())
    ensures out.Value() == old(s.Value())
  {
    var global := CloneIPSet(s.global);
    var perUser := CloneUsers(s.perUser);
    out := new StateRef(global, perUser);
    forall uid | uid in perUser
      ensures out.Value().perUser[uid] == old(s.Value()).perUser[uid]
    {
    }
    assert out.Value().perUser.Keys == perUser.Keys == old(s.Value()).perUser.Keys;
  }
}
