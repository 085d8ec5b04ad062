/** Blocklists and their normal form: ascending, without repetitions and without empty strings. */
module Lists {
  import opened Wrappers
  import opened Sorting

  datatype BlockList = BlockList(domains: seq<string>, ips: seq<string>)

  const EMPTY := BlockList([], [])

  ghost predicate Normal(l: seq<string>) {
    Ascending(StringLess, l) && "" !in l
  }

  ghost predicate NormalList(bl: BlockList) {
    Normal(bl.domains) && Normal(bl.ips)
  }

  // The normal form of a set of strings.
  ghost function NormalOf(s: set<string>): (r: seq<string>)
    ensures Normal(r) && Elements(r) == s - {""}
  {
    StringLessStrict();
    var r := AscendingOf(StringLess, s - {""});
    assert "" !in r by { assert "" !in Elements(r); }
    r
  }

  lemma NormalIsCanonical(l: seq<string>)
    requires Normal(l)
    ensures NormalOf(Elements(l)) == l && |Elements(l)| == |l|
  {
    StringLessStrict();
    assert "" !in Elements(l);
    AscendingUnique(StringLess, NormalOf(Elements(l)), l);
    AscendingDistinct(StringLess, l);
    DistinctSize(l);
  }

  lemma NormalIsDistinct(l: seq<string>)
    requires Normal(l)
    ensures Distinct(l)
  {
    StringLessStrict();
    AscendingDistinct(StringLess, l);
  }

  method SortedUnique(s: seq<string>) returns (out: seq<string>)
    ensures out == NormalOf(Elements(s))
  {
    var seen: set<string> := {};
    out := [];
    for i := 0 to |s|
      invariant Distinct(out) && Elements(out) == Elements(s[..i]) - {""}
      invariant seen == Elements(out)
    {
      ElementsNext(s, i);
      if s[i] == "" || s[i] in seen {
        continue;
      }
      AppendDistinct(out, s[i]);
      seen := seen + {s[i]};
      out := out + [s[i]];
    }
    assert s[..|s|] == s;
    StringLessStrict();
    SortOfDistinct(StringLess, out);
    out := Sort(StringLess, out);
  }

  // ---------- Adding ----------

  ghost function Added(dst: seq<string>, add: seq<string>): seq<string> {
    NormalOf(Elements(dst) + Elements(add))
  }

  function AddedCount(dst: seq<string>, add: seq<string>): nat {
    |Elements(add) - Elements(dst)|
  }

  method AddUnique(dst: seq<string>, add: seq<string>) returns (r: seq<string>, n: nat)
    ensures r == Added(dst, add) && n == AddedCount(dst, add)
  {
    hide Added, Elements, StringLess;
    var existing := ToSet(dst);
    r, n := dst, 0;
    assert add[..0] == [];
    NoElements();
    for i := 0 to |add|
      invariant Elements(r) == existing == Elements(dst) + Elements(add[..i])
      invariant n == |Elements(add[..i]) - Elements(dst)|
    {
      ElementsNext(add, i);
      OneMoreAdded(dst, add, i);
      if add[i] !in existing {
        AppendElement(r, add[i]);
        existing := existing + {add[i]};
        r := r + [add[i]];
        n := n + 1;
      }
    }
    assert add[..|add|] == add;
    UnionIsAdded(dst, add);
    r := SortedUnique(r);
  }

  lemma OneMoreAdded(dst: seq<string>, add: seq<string>, i: nat)
    requires i < |add|
    ensures |Elements(add[..i + 1]) - Elements(dst)| == |Elements(add[..i]) - Elements(dst)|
              + (if add[i] in Elements(dst) + Elements(add[..i]) then 0 else 1)
  {
    hide Elements;
    ElementsNext(add, i);
    var before, now := Elements(add[..i]) - Elements(dst), Elements(add[..i + 1]) - Elements(dst);
    if add[i] in Elements(dst) + Elements(add[..i]) {
      assert now == before;
    } else {
      assert now == before + {add[i]};
    }
  }

  lemma NoElements()
    ensures Elements<string>([]) == {}
  {
  }

  lemma AppendElement(s: seq<string>, x: string)
    ensures Elements(s + [x]) == Elements(s) + {x}
  {
  }

  lemma UnionIsAdded(dst: seq<string>, add: seq<string>)
    ensures Added(dst, add) == NormalOf(Elements(dst) + Elements(add))
  {
  }

  // ---------- Removing ----------

  ghost function Removed(dst: seq<string>, remove: seq<string>): seq<string> {
    NormalOf(Elements(dst) - Elements(remove))
  }

  function Kept(dst: seq<string>, remove: set<string>): seq<string> {
    if dst == [] then []
    else Kept(dst[..|dst| - 1], remove) + (if dst[|dst| - 1] in remove then [] else [dst[|dst| - 1]])
  }

  function RemovedCount(dst: seq<string>, remove: seq<string>): int {
    |dst| - |Kept(dst, Elements(remove))|
  }

  lemma {:induction false} KeptElements(dst: seq<string>, remove: set<string>)
    ensures Elements(Kept(dst, remove)) == Elements(dst) - remove
    ensures |Kept(dst, remove)| <= |dst|
    ensures Distinct(dst) ==> Distinct(Kept(dst, remove))
  {
    if dst != [] {
      var init, last := dst[..|dst| - 1], dst[|dst| - 1];
      assert dst == init + [last];
      KeptElements(init, remove);
      assert Elements(dst) == Elements(init) + {last};
      if last !in remove {
        assert Elements(Kept(dst, remove)) == Elements(Kept(init, remove)) + {last};
        if Distinct(dst) {
          assert last !in init && last !in Elements(Kept(init, remove));
        }
      } else {
        assert Kept(dst, remove) == Kept(init, remove);
      }
    }
  }

  // removeAll: the survivors are moved to the front of the same backing array while the loop still reads it.
  method RemoveAll(dst: array<string>, remove: seq<string>) returns (r: seq<string>, n: int)
    modifies dst
    ensures r == Removed(old(dst[..]), remove) && n == RemovedCount(old(dst[..]), remove)
  {
    var toRemove := ToSet(remove);
    ghost var before := dst[..];
    var out := 0;
    n := 0;
    for i := 0 to dst.Length
      invariant 0 <= out <= i && n == i - out
      invariant dst[..out] == Kept(before[..i], toRemove)
      invariant forall k :: i <= k < dst.Length ==> dst[k] == before[k]
    {
      assert before[..i + 1][..i] == before[..i];
      if dst[i] in toRemove {
        n := n + 1;
        continue;
      }
      dst[out] := dst[i];
      assert dst[..out + 1] == dst[..out] + [before[i]];
      out := out + 1;
    }
    assert before[..dst.Length] == before;
    r := SortedUnique(dst[..out]);
    KeptElements(before, toRemove);
  }

  // ---------- Exact counts ----------

  // On a normal list the sorted union, and the count is the growth exactly when no empty string is added: an empty
  // string is counted but not kept.
  lemma AddCountExact(dst: seq<string>, add: seq<string>)
    requires Normal(dst)
    ensures Normal(Added(dst, add)) && Elements(Added(dst, add)) == (Elements(dst) + Elements(add)) - {""}
    ensures AddedCount(dst, add) == |Added(dst, add)| - |dst| <==> "" !in add
    ensures AddedCount(dst, add) <= |add|
  {
    hide Added, Elements, Normal, NormalOf;
    AddedIs(dst, add);
    NormalIsCanonical(dst);
    NormalIsCanonical(Added(dst, add));
    NotEmpty(dst);
    ElementsAre(add);
    AddedSize(Elements(dst), Elements(add));
    SubsetSize(Elements(add) - Elements(dst), Elements(add));
    ElementsSize(add);
  }

  lemma AddedIs(dst: seq<string>, add: seq<string>)
    ensures Normal(Added(dst, add)) && Elements(Added(dst, add)) == (Elements(dst) + Elements(add)) - {""}
  {
    hide Normal, Elements;
  }

  lemma AddedSize(d: set<string>, a: set<string>)
    requires "" !in d
    ensures |(d + a) - {""}| == |d| + |a - d| - (if "" in a then 1 else 0)
  {
    UnionSize(d, a - d);
    assert (d + a) - {""} == d + ((a - d) - {""});
  }

  lemma NotEmpty(l: seq<string>)
    requires Normal(l)
    ensures "" !in Elements(l)
  {
  }

  lemma ElementsAre(l: seq<string>)
    ensures forall x :: x in Elements(l) <==> x in l
  {
  }

  lemma UnionSize(a: set<string>, b: set<string>)
    requires a !! b
    ensures |a + (b - {""})| == |a| + |b| - (if "" in b then 1 else 0)
  {
    if "" in b {
      assert b == (b - {""}) + {""};
    } else {
      assert b - {""} == b;
    }
  }

  // On a normal list the sorted difference, and the count is exactly the shrinking.
  lemma RemoveCountExact(dst: seq<string>, remove: seq<string>)
    requires Normal(dst)
    ensures Normal(Removed(dst, remove)) && Elements(Removed(dst, remove)) == Elements(dst) - Elements(remove)
    ensures RemovedCount(dst, remove) == |dst| - |Removed(dst, remove)|
    ensures 0 <= RemovedCount(dst, remove) <= |remove|
  {
    hide StringLess, Ascending;
    var r, gone := Removed(dst, remove), Elements(remove);
    NormalIsDistinct(dst);
    KeptElements(dst, gone);
    NormalIsCanonical(r);
    assert "" !in Elements(dst);
    DistinctSize(Kept(dst, gone));
    DistinctSize(dst);
    assert Elements(dst) == (Elements(dst) - gone) + (Elements(dst) * gone);
    assert |Elements(dst)| == |Elements(dst) - gone| + |Elements(dst) * gone|;
    SubsetSize(Elements(dst) * gone, gone);
    ElementsSize(remove);
  }

  lemma SubsetSize<T>(a: set<T>, b: set<T>)
    requires a <= b
    ensures |a| <= |b|
  {
    assert b == a + (b - a);
  }

  // ---------- Edits ----------

  // What a request does to one blocklist.
  datatype Edit = Add(domains: seq<string>, ips: seq<string>) | Remove(domains: seq<string>, ips: seq<string>)

  ghost function Edited(e: Edit, bl: BlockList): BlockList {
    match e
    case Add(ds, ips) => BlockList(Added(bl.domains, ds), Added(bl.ips, ips))
    case Remove(ds, ips) => BlockList(Removed(bl.domains, ds), Removed(bl.ips, ips))
  }

  // The numbers of domains and of IPs the edit reports.
  ghost function Changes(e: Edit, bl: BlockList): (int, int) {
    match e
    case Add(ds, ips) => (AddedCount(bl.domains, ds), AddedCount(bl.ips, ips))
    case Remove(ds, ips) => (RemovedCount(bl.domains, ds), RemovedCount(bl.ips, ips))
  }

  lemma EditedIsNormal(e: Edit, bl: BlockList)
    ensures NormalList(Edited(e, bl))
  {
  }

  // ---------- What edits mean ----------

  datatype Field = Domains | Ips

  function ListIn(bl: BlockList, f: Field): seq<string> {
    if f.Domains? then bl.domains else bl.ips
  }

  function ItemsOf(e: Edit, f: Field): seq<string> {
    if f.Domains? then e.domains else e.ips
  }

  // An edit decides about the items it names, each in its own list, and about nothing else.
  lemma EditedMeans(e: Edit, bl: BlockList, f: Field, x: string)
    requires x != ""
    ensures x in ListIn(Edited(e, bl), f) <==> if x in ItemsOf(e, f) then e.Add? else x in ListIn(bl, f)
    ensures "" !in ListIn(Edited(e, bl), f)
  {
    hide Normal, NormalOf;
    var r := ListIn(Edited(e, bl), f);
    EditedIsNormal(e, bl);
    NotEmpty(r);
    ElementsAre(r);
    ElementsAre(ListIn(bl, f));
    ElementsAre(ItemsOf(e, f));
  }

  // What the last of some edits to name an item says: that it is in, that it is out, or nothing.
  function LastWord(edits: seq<Edit>, f: Field, x: string): Option<bool> {
    if edits == [] then None
    else if x in ItemsOf(edits[|edits| - 1], f) then Some(edits[|edits| - 1].Add?)
    else LastWord(edits[..|edits| - 1], f, x)
  }

  lemma {:induction false} LastWordAfter(e: Edit, edits: seq<Edit>, f: Field, x: string)
    ensures LastWord([e] + edits, f, x) ==
              if LastWord(edits, f, x).Some? then LastWord(edits, f, x)
              else if x in ItemsOf(e, f) then Some(e.Add?) else None
  {
    var all := [e] + edits;
    if edits == [] {
      assert all[..0] == [];
    } else {
      assert all[..|all| - 1] == [e] + edits[..|edits| - 1];
      LastWordAfter(e, edits[..|edits| - 1], f, x);
    }
  }

  // The handler's count of requested items that changed nothing is never negative on a normal list.
  lemma NoOpsNeverNegative(e: Edit, bl: BlockList)
    requires NormalList(bl)
    ensures (|e.domains| - Changes(e, bl).0) + (|e.ips| - Changes(e, bl).1) >= 0
  {
    match e
    case Add(ds, ips) =>
      AddCountExact(bl.domains, ds);
      AddCountExact(bl.ips, ips);
    case Remove(ds, ips) =>
      RemoveCountExact(bl.domains, ds);
      RemoveCountExact(bl.ips, ips);
  }
}
