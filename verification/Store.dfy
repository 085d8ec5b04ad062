/** The file store: a directory tree that refines a map from scopes to blocklists, through crashes. */
module Store {
  import opened Wrappers
  import opened Decimal
  import opened Sorting
  import opened Lists

  datatype Scope = Global | User(uid: int)

  // Uids are Go ints.
  predicate ValidScope(s: Scope) {
    s.User? ==> InInt64(s.uid)
  }

  datatype Dir = Root | Users

  datatype Path = Path(dir: Dir, name: string)

  // A file holds the JSON text of a blocklist, or text that does not parse.
  datatype FileData = Json(list: BlockList) | Torn

  type Disk = map<Path, FileData>

  const SUFFIX := ".json"
  const TMP_PREFIX := ".tmp-"

  function PathOf(s: Scope): Path {
    match s
    case Global => Path(Root, "global" + SUFFIX)
    case User(uid) => Path(Users, Itoa(uid) + SUFFIX)
  }

  // The names os.CreateTemp makes of ".tmp-*".
  predicate IsTempName(n: string) {
    TMP_PREFIX < n && AllDigits(n[|TMP_PREFIX|..])
  }

  // What ListUserUIDs makes of a directory entry.
  function UidOfName(n: string): Option<int> {
    if |n| < |SUFFIX| || n[|n| - |SUFFIX|..] != SUFFIX then None else Atoi(n[..|n| - |SUFFIX|])
  }

  // A list file carries the canonical name of its scope.
  predicate IsListPath(p: Path) {
    p == PathOf(Global)
    || (p.dir == Users && UidOfName(p.name).Some? && p == PathOf(User(UidOfName(p.name).value)))
  }

  // Directory listing inverts path naming.
  lemma UidOfPath(uid: int)
    requires InInt64(uid)
    ensures UidOfName(PathOf(User(uid)).name) == Some(uid)
    ensures IsListPath(PathOf(User(uid)))
  {
    var n := Itoa(uid) + SUFFIX;
    assert n[..|n| - |SUFFIX|] == Itoa(uid);
    AtoiInvertsItoa(uid);
  }

  lemma PathInjective(a: Scope, b: Scope)
    requires PathOf(a) == PathOf(b)
    ensures a == b
  {
    if a.User? {
      var n, m := Itoa(a.uid) + SUFFIX, Itoa(b.uid) + SUFFIX;
      assert n[..|n| - |SUFFIX|] == Itoa(a.uid) && m[..|m| - |SUFFIX|] == Itoa(b.uid);
      ItoaInjective(a.uid, b.uid);
    }
  }

  // A temporary name never ends in .json, so it is neither listed nor loaded.
  lemma TempNames(n: string, s: Scope)
    requires IsTempName(n)
    ensures UidOfName(n) == None && PathOf(s).name != n
  {
    assert IsDigit(n[|TMP_PREFIX|..][|n| - |TMP_PREFIX| - 1]);
    assert n[|n| - 1] != SUFFIX[4];
    assert |n| >= |SUFFIX| ==> n[|n| - |SUFFIX|..][4] == n[|n| - 1];
    assert PathOf(s).name[|PathOf(s).name| - 1] == SUFFIX[4];
  }

  // ---------- Saving ----------

  datatype Op =
    | Create(path: Path)
    | WritePart(path: Path)
    | WriteAll(path: Path, list: BlockList)
    | Chmod(path: Path)
    | Close(path: Path)
    | Rename(from: Path, to: Path)

  function Exec(op: Op, d: Disk): Disk {
    match op
    case Create(p) => d[p := Torn]
    case WritePart(p) => d[p := Torn]
    case WriteAll(p, l) => d[p := Json(l)]
    case Chmod(_) => d
    case Close(_) => d
    case Rename(p, q) => if p in d then (d - {p})[q := d[p]] else d
  }

  function RunOps(ops: seq<Op>, d: Disk): Disk {
    if ops == [] then d else RunOps(ops[1..], Exec(ops[0], d))
  }

  function SaveOps(tmp: Path, final: Path, list: BlockList): seq<Op> {
    [Create(tmp), WritePart(tmp), WriteAll(tmp, list), Chmod(tmp), Close(tmp), Rename(tmp, final)]
  }

  const SAVE_STEPS := 6

  // How a save ends: after so many operations it stops, either because the next one fails, and then the deferred
  // removal of the temporary runs, or because the machine crashes, and then it does not.
  datatype Ending = Completes | Fails(after: nat) | Crashes(after: nat)

  predicate Commits(e: Ending) {
    e.Completes? || e.after >= SAVE_STEPS
  }

  function Saved(d: Disk, s: Scope, list: BlockList, tmp: Path, e: Ending): Disk {
    var ops := SaveOps(tmp, PathOf(s), list);
    if Commits(e) then RunOps(ops, d)
    else
      var d' := RunOps(ops[..e.after], d);
      if e.Fails? then d' - {tmp} else d'
  }

  // The disk refines the map: list files and nothing else but left-over temporaries.
  ghost predicate Refines(d: Disk, lists: map<Scope, BlockList>) {
    && (forall s :: s in lists ==> ValidScope(s))
    && (forall s :: ValidScope(s) ==> (PathOf(s) in d <==> s in lists))
    && (forall s :: s in lists ==> d[PathOf(s)] == Json(lists[s]))
    && (forall p :: p in d ==> IsTempName(p.name) || IsListPath(p))
  }

  predicate FreshTemp(d: Disk, s: Scope, tmp: Path) {
    tmp.dir == PathOf(s).dir && IsTempName(tmp.name) && tmp !in d
  }

  // A temporary in any state does not show.
  lemma TempInvisible(d: Disk, lists: map<Scope, BlockList>, tmp: Path, data: FileData)
    requires Refines(d, lists) && IsTempName(tmp.name)
    ensures Refines(d[tmp := data], lists) && Refines(d - {tmp}, lists)
  {
    hide PathOf, IsTempName, IsListPath;
    forall s ensures PathOf(s) != tmp {
      TempNames(tmp.name, s);
    }
  }

  lemma RenameCommits(d: Disk, lists: map<Scope, BlockList>, s: Scope, list: BlockList, tmp: Path)
    requires Refines(d, lists) && ValidScope(s) && IsTempName(tmp.name)
    ensures Refines((d - {tmp})[PathOf(s) := Json(list)], lists[s := list])
  {
    hide PathOf, IsTempName, IsListPath;
    TempInvisible(d, lists, tmp, Torn);
    ListPathOf(s);
    forall a | PathOf(a) == PathOf(s) ensures a == s {
      PathInjective(a, s);
    }
  }

  lemma ListPathOf(s: Scope)
    requires ValidScope(s)
    ensures IsListPath(PathOf(s))
  {
    if s.User? {
      UidOfPath(s.uid);
    }
  }

  // Interrupted anywhere, a save leaves either the old map or the one with the target's new list, never anything else.
  lemma SaveIsAtomic(d: Disk, lists: map<Scope, BlockList>, s: Scope, list: BlockList, tmp: Path, e: Ending)
    requires Refines(d, lists) && ValidScope(s) && FreshTemp(d, s, tmp)
    ensures Refines(Saved(d, s, list, tmp, e), if Commits(e) then lists[s := list] else lists)
  {
    hide PathOf, IsTempName, Refines;
    var ops := SaveOps(tmp, PathOf(s), list);
    OpsUnfold(d, tmp, PathOf(s), list);
    TempInvisible(d, lists, tmp, Torn);
    TempInvisible(d, lists, tmp, Json(list));
    if Commits(e) {
      RenameCommits(d[tmp := Json(list)], lists, s, list, tmp);
    } else {
      TempInvisible(d[tmp := Torn], lists, tmp, Torn);
      TempInvisible(d[tmp := Json(list)], lists, tmp, Torn);
    }
  }

  lemma OpsUnfold(d: Disk, tmp: Path, final: Path, list: BlockList)
    ensures var ops := SaveOps(tmp, final, list);
            && RunOps(ops[..0], d) == d
            && RunOps(ops[..1], d) == RunOps(ops[..2], d) == d[tmp := Torn]
            && RunOps(ops[..3], d) == RunOps(ops[..4], d) == RunOps(ops[..5], d) == d[tmp := Json(list)]
            && RunOps(ops, d) == (d[tmp := Json(list)] - {tmp})[final := Json(list)]
  {
    var ops := SaveOps(tmp, final, list);
    var torn, full := d[tmp := Torn], d[tmp := Json(list)];
    assert torn[tmp := Torn] == torn && torn[tmp := Json(list)] == full;
    RunPrefix(ops, 0, d);
    RunPrefix(ops, 1, d);
    RunPrefix(ops, 2, d);
    RunPrefix(ops, 3, d);
    RunPrefix(ops, 4, d);
    RunPrefix(ops, 5, d);
    assert ops[..6] == ops;
  }

  lemma {:induction false} RunPrefix(ops: seq<Op>, n: nat, d: Disk)
    requires n < |ops|
    ensures RunOps(ops[..n + 1], d) == Exec(ops[n], RunOps(ops[..n], d))
  {
    if n > 0 {
      assert ops[..n + 1][1..] == ops[1..][..n] && ops[..n][1..] == ops[1..][..n - 1];
      RunPrefix(ops[1..], n - 1, Exec(ops[0], d));
    } else {
      assert ops[..1][1..] == [] && ops[..0] == [];
    }
  }

  // ---------- Reading ----------

  // A missing file is an empty list.
  function LoadFrom(d: Disk, s: Scope): Result<BlockList> {
    if PathOf(s) !in d then Ok(EMPTY)
    else if d[PathOf(s)].Torn? then Err
    else Ok(d[PathOf(s)].list)
  }

  function Lookup(lists: map<Scope, BlockList>, s: Scope): BlockList {
    if s in lists then lists[s] else EMPTY
  }

  ghost function UidsOf(lists: map<Scope, BlockList>): set<int> {
    set s | s in lists && s.User? :: s.uid
  }

  function NamesIn(d: Disk): set<string> {
    set p | p in d && p.dir == Users :: p.name
  }

  // The uids that a set of file names stands for.
  ghost function UidsNamed(names: set<string>): set<int> {
    set n | n in names && UidOfName(n).Some? :: UidOfName(n).value
  }

  lemma ListedUids(d: Disk, lists: map<Scope, BlockList>)
    requires Refines(d, lists)
    ensures UidsNamed(NamesIn(d)) == UidsOf(lists)
    ensures forall m, n ::
              m in NamesIn(d) && n in NamesIn(d) && UidOfName(m).Some? && UidOfName(m) == UidOfName(n) ==> m == n
  {
    forall n | n in NamesIn(d) && UidOfName(n).Some?
      ensures n == PathOf(User(UidOfName(n).value)).name && User(UidOfName(n).value) in lists
    {
      var p := Path(Users, n);
      assert p in d;
      if IsTempName(n) {
        TempNames(n, Global);
      }
      assert IsListPath(p);
      assert PathOf(User(UidOfName(n).value)) == p;
      AtoiInRange(n[..|n| - |SUFFIX|]);
    }
    forall uid | uid in UidsOf(lists) ensures uid in UidsNamed(NamesIn(d)) {
      UidOfPath(uid);
      assert PathOf(User(uid)).name in NamesIn(d);
    }
  }

  lemma NextName(all: set<string>, left: set<string>, n: string)
    requires n in left && left <= all
    requires forall a, b :: a in all && b in all && UidOfName(a).Some? && UidOfName(a) == UidOfName(b) ==> a == b
    ensures UidOfName(n).None? ==> UidsNamed(all - (left - {n})) == UidsNamed(all - left)
    ensures UidOfName(n).Some? ==>
              && UidOfName(n).value !in UidsNamed(all - left)
              && UidsNamed(all - (left - {n})) == UidsNamed(all - left) + {UidOfName(n).value}
  {
    hide UidOfName;
    assert all - (left - {n}) == (all - left) + {n};
  }

  lemma AtoiInRange(s: string)
    requires Atoi(s).Some?
    ensures InInt64(Atoi(s).value)
  {
  }

  // ---------- The store ----------

  class Store {
    var disk: Disk
    ghost var lists: map<Scope, BlockList> // what has been committed, scope by scope

    ghost predicate Valid()
      reads this
    {
      Refines(disk, lists) && forall s :: s in lists ==> NormalList(lists[s])
    }

    constructor ()
      ensures Valid() && lists == map[]
    {
      disk, lists := map[], map[];
    }

    method Load(s: Scope, readFails: bool) returns (r: Result<BlockList>)
      requires Valid() && ValidScope(s)
      ensures r == if readFails then Err else Ok(Lookup(lists, s))
    {
      if readFails {
        return Err;
      }
      r := LoadFrom(disk, s);
    }

    method Save(s: Scope, bl: BlockList, tmp: Path, e: Ending)
      requires Valid() && ValidScope(s) && FreshTemp(disk, s, tmp)
      modifies this
      ensures Valid()
      ensures lists == if Commits(e)
                       then old(lists)[s := BlockList(NormalOf(Elements(bl.domains)), NormalOf(Elements(bl.ips)))]
                       else old(lists)
    {
      var domains := SortedUnique(bl.domains);
      var ips := SortedUnique(bl.ips);
      var list := BlockList(domains, ips);
      SaveIsAtomic(disk, lists, s, list, tmp, e);
      disk := Saved(disk, s, list, tmp, e);
      lists := if Commits(e) then lists[s := list] else lists;
    }

    // The callbacks of AddEntries and RemoveEntries, applied to the loaded copy.
    method Edit(e: Edit, bl: BlockList) returns (r: BlockList, n: (int, int))
      ensures r == Edited(e, bl) && n == Changes(e, bl)
    {
      match e
      case Add(ds, ips) =>
        var d, nd := AddUnique(bl.domains, ds);
        var i, ni := AddUnique(bl.ips, ips);
        r, n := BlockList(d, i), (nd, ni);
      case Remove(ds, ips) =>
        var domains := new string[|bl.domains|](i requires 0 <= i < |bl.domains| => bl.domains[i]);
        assert domains[..] == bl.domains;
        var d, nd := RemoveAll(domains, ds);
        var addrs := new string[|bl.ips|](i requires 0 <= i < |bl.ips| => bl.ips[i]);
        assert addrs[..] == bl.ips;
        var i, ni := RemoveAll(addrs, ips);
        r, n := BlockList(d, i), (nd, ni);
    }

    // Load, edit and save under one lock. The caller sees an error unless the new list is in place; the edit is in the
    // store exactly when the rename happened.
    method Mutate(s: Scope, e: Edit, tmp: Path, readFails: bool, ending: Ending) returns (r: Result<(int, int)>)
      requires Valid() && ValidScope(s) && FreshTemp(disk, s, tmp)
      modifies this
      ensures Valid()
      ensures lists == if !readFails && Commits(ending) then old(lists)[s := Edited(e, Lookup(old(lists), s))]
                       else old(lists)
      ensures r == if !readFails && Commits(ending) then Ok(Changes(e, Lookup(old(lists), s))) else Err
      ensures r.Ok? ==> forall f, x :: x != "" ==>
                          (x in ListIn(Lookup(lists, s), f) <==>
                            if x in ItemsOf(e, f) then e.Add? else x in ListIn(Lookup(old(lists), s), f))
      ensures forall other :: other != s || r.Err? ==> Lookup(lists, other) == Lookup(old(lists), other)
    {
      hide Edited, Changes;
      var loaded := Load(s, readFails);
      if loaded.Err? {
        return Err;
      }
      var edited, n := Edit(e, loaded.value);
      EditedIsNormal(e, loaded.value);
      forall f, x | x != ""
        ensures x in ListIn(edited, f) <==> if x in ItemsOf(e, f) then e.Add? else x in ListIn(loaded.value, f)
      {
        EditedMeans(e, loaded.value, f, x);
      }
      NormalIsCanonical(edited.domains);
      NormalIsCanonical(edited.ips);
      Save(s, edited, tmp, ending);
      r := if Commits(ending) then Ok(n) else Err;
    }

    // The uids of the entries whose names are a decimal number and .json, ascending.
    method ListUserUIDs(readFails: bool) returns (r: Result<seq<int>>)
      requires Valid()
      ensures r.Err? <==> readFails
      ensures r.Ok? ==> Ascending(IntLess, r.value) && Elements(r.value) == UidsOf(lists)
    {
      if readFails {
        return Err;
      }
      ListedUids(disk, lists);
      var uids: seq<int> := [];
      var names := NamesIn(disk);
      while names != {}
        invariant names <= NamesIn(disk)
        invariant Distinct(uids) && Elements(uids) == UidsNamed(NamesIn(disk) - names)
        decreases names
      {
        var n := NextOf(names);
        var uid := UidOfName(n);
        NextName(NamesIn(disk), names, n);
        if uid.Some? {
          AppendDistinct(uids, uid.value);
          uids := uids + [uid.value];
        }
        names := names - {n};
      }
      assert NamesIn(disk) - names == NamesIn(disk);
      IntLessStrict();
      r := Ok(Sort(IntLess, uids));
    }
  }

  // ---------- Whole histories ----------

  // One Mutate, however it ended; after a crash the daemon is restarted on the same disk.
  datatype Event = Event(scope: Scope, edit: Edit, tmp: Path, ending: Ending)

  ghost function ListsAfter(events: seq<Event>): map<Scope, BlockList> {
    if events == [] then map[]
    else
      var lists, ev := ListsAfter(events[..|events| - 1]), events[|events| - 1];
      if Commits(ev.ending) then lists[ev.scope := Edited(ev.edit, Lookup(lists, ev.scope))] else lists
  }

  ghost function DiskAfter(events: seq<Event>): Disk {
    if events == [] then map[]
    else
      var d, ev := DiskAfter(events[..|events| - 1]), events[|events| - 1];
      match LoadFrom(d, ev.scope)
      case Ok(bl) => Saved(d, ev.scope, Edited(ev.edit, bl), ev.tmp, ev.ending)
      case Err => d
  }

  ghost predicate Possible(events: seq<Event>) {
    events != [] ==>
      var ev := events[|events| - 1];
      && Possible(events[..|events| - 1])
      && ValidScope(ev.scope) && FreshTemp(DiskAfter(events[..|events| - 1]), ev.scope, ev.tmp)
  }

  ghost predicate EverCommitted(events: seq<Event>, s: Scope) {
    exists i :: 0 <= i < |events| && events[i].scope == s && Commits(events[i].ending)
  }

  // Over every history of mutations, failures and crashes: each scope loads what was last committed to it, and the uids
  // listed are exactly those ever committed to.
  lemma {:induction false} StoreRefinesMap(events: seq<Event>)
    requires Possible(events)
    ensures Refines(DiskAfter(events), ListsAfter(events))
    ensures forall s :: ValidScope(s) ==> LoadFrom(DiskAfter(events), s) == Ok(Lookup(ListsAfter(events), s))
    ensures forall uid :: uid in UidsNamed(NamesIn(DiskAfter(events))) <==> EverCommitted(events, User(uid))
  {
    hide PathOf, Saved, Edited, IsTempName, IsListPath, UidOfName, EverCommitted;
    if events != [] {
      var init, ev := events[..|events| - 1], events[|events| - 1];
      StoreRefinesMap(init);
      var d, lists := DiskAfter(init), ListsAfter(init);
      SaveIsAtomic(d, lists, ev.scope, Edited(ev.edit, Lookup(lists, ev.scope)), ev.tmp, ev.ending);
    }
    ListedUids(DiskAfter(events), ListsAfter(events));
    forall uid ensures uid in UidsOf(ListsAfter(events)) <==> EverCommitted(events, User(uid)) {
      CommittedScopes(events, User(uid));
    }
  }

  lemma {:induction false} CommittedScopes(events: seq<Event>, s: Scope)
    ensures s in ListsAfter(events) <==> EverCommitted(events, s)
  {
    hide Edited;
    if events != [] {
      var init, ev := events[..|events| - 1], events[|events| - 1];
      CommittedScopes(init, s);
      if EverCommitted(init, s) {
        var i :| 0 <= i < |init| && init[i].scope == s && Commits(init[i].ending);
        assert events[i] == init[i];
      }
      if EverCommitted(events, s) {
        var i :| 0 <= i < |events| && events[i].scope == s && Commits(events[i].ending);
        assert i < |init| ==> init[i] == events[i];
      }
      assert events[|init|] == ev;
    }
  }

  // The edits of one scope that were committed, in order.
  function CommittedEdits(events: seq<Event>, s: Scope): seq<Edit> {
    if events == [] then []
    else
      var ev := events[|events| - 1];
      CommittedEdits(events[..|events| - 1], s) + (if ev.scope == s && Commits(ev.ending) then [ev.edit] else [])
  }

  // Said item by item: after any history, what a scope loads holds exactly the items that the last committed edit of
  // this scope to name them added.
  lemma {:induction false} LoadsWhatWasAdded(events: seq<Event>, s: Scope, f: Field, x: string)
    requires Possible(events) && ValidScope(s)
    ensures var r := LoadFrom(DiskAfter(events), s);
            r.Ok? && (x in ListIn(r.value, f) <==> x != "" && LastWord(CommittedEdits(events, s), f, x) == Some(true))
  {
    StoreRefinesMap(events);
    ListedAfter(events, s, f, x);
  }

  lemma {:induction false} ListedAfter(events: seq<Event>, s: Scope, f: Field, x: string)
    ensures x in ListIn(Lookup(ListsAfter(events), s), f) <==>
              x != "" && LastWord(CommittedEdits(events, s), f, x) == Some(true)
  {
    hide Edited;
    if events != [] {
      var init, ev := events[..|events| - 1], events[|events| - 1];
      ListedAfter(init, s, f, x);
      if ev.scope == s && Commits(ev.ending) {
        EditedMeans(ev.edit, Lookup(ListsAfter(init), s), f, if x == "" then "x" else x);
        var edits := CommittedEdits(events, s);
        assert edits[..|edits| - 1] == CommittedEdits(init, s);
      } else {
        assert CommittedEdits(events, s) == CommittedEdits(init, s);
      }
    }
  }
}
