/**
 What runs of the rebuild protocol do to lists, cache and packets,
   told from the labels of the run alone: which edits were
 committed, which answers were merged, and what they say item by item and address by address.
 */
module RebuildMeaning {
  import opened Wrappers
  import opened Sorting
  import opened Backend
  import opened Lists
  import opened Engine
  import opened RebuildProtocol
  import opened RebuildSafety
  import opened RebuildTheorems
  import opened RebuildProgress
  import opened EndToEnd
  import S = Store
  import F = Firewall

  // ---------- Lists ----------

  function Requests(w: World): map<nat, Request> {
    map id | id in w.ops :: w.ops[id].req
  }

  // The edits of one scope that a run commits, in order, given the requests made before it.
  function CommittedEdits(requests: map<nat, Request>, labels: seq<Label>, s: S.Scope): seq<Edit>
    decreases labels
  {
    if labels == [] then []
    else
      match labels[0]
      case Spawn(id, req) => CommittedEdits(requests[id := req], labels[1..], s)
      case Commit(id) =>
        (if id in requests && requests[id].Change? && requests[id].scope == s then [requests[id].edit] else [])
        + CommittedEdits(requests, labels[1..], s)
      case _ => CommittedEdits(requests, labels[1..], s)
  }

  // The item is in the list after the run: the last committed edit to name it added it, or none names it and it was
  // there before.
  ghost predicate Listed(w0: World, labels: seq<Label>, s: S.Scope, f: Field, x: string) {
    && x != ""
    && match LastWord(CommittedEdits(Requests(w0), labels, s), f, x)
       case Some(added) => added
       case None => x in ListIn(Current(w0, s), f)
  }

  lemma CommitEdits(parse: string -> Parsed, w: World, l: Label, s: S.Scope)
    requires Enabled(parse, w, l) && l.Commit?
    ensures Current(Do(parse, w, l), s)
         == if w.ops[l.id].req.scope == s then Edited(w.ops[l.id].req.edit, Current(w, s)) else Current(w, s)
  {
    hide Edited;
  }

  lemma StepRequests(parse: string -> Parsed, w: World, l: Label)
    requires Enabled(parse, w, l)
    ensures Requests(Do(parse, w, l)) == if l.Spawn? then Requests(w)[l.id := l.req] else Requests(w)
  {
    hide F.Apply, Wanted, Pruned, IsStateOf, SnapshotOf, Edited, ToResolve, Merged, Unresolved, SortedInts, StoredUids,
         Current, Version, ListAt;
  }

  // How one step changes the lists and the requests made.
  lemma StepLists(parse: string -> Parsed, w: World, l: Label, s: S.Scope)
    requires Enabled(parse, w, l)
    ensures var w' := Do(parse, w, l);
            && Current(w', s) == (if l.Commit? && w.ops[l.id].req.scope == s
                                  then Edited(w.ops[l.id].req.edit, Current(w, s)) else Current(w, s))
            && Requests(w') == (if l.Spawn? then Requests(w)[l.id := l.req] else Requests(w))
  {
    hide Do, Edited, Requests, Version, ListAt;
    StepRequests(parse, w, l);
    if l.Commit? {
      CommitEdits(parse, w, l, s);
    } else {
      VersionsGrow(parse, w, l, s);
    }
  }

  // Item by item, every list is what the committed edits make of the one before the run.
  lemma {:induction false} ListsAreEdited(parse: string -> Parsed, w: World, labels: seq<Label>, s: S.Scope, f: Field,
                                          x: string)
    requires Run(parse, w, labels) && (x != "" || "" !in ListIn(Current(w, s), f))
    ensures x in ListIn(Current(After(parse, w, labels), s), f) <==> Listed(w, labels, s, f, x)
    decreases labels
  {
    hide Do, Enabled, Current, Edited, Requests, ListIn, LastWord, ItemsOf;
    NoWord(f, x);
    if labels != [] {
      var l, rest, w' := labels[0], labels[1..], Do(parse, w, labels[0]);
      StepLists(parse, w, l, s);
      if l.Commit? {
        CommitMakesRequest(parse, w, l);
        if w.ops[l.id].req.scope == s {
          var e := w.ops[l.id].req.edit;
          EditedMeans(e, Current(w, s), f, if x == "" then "x" else x);
          LastWordAfter(e, CommittedEdits(Requests(w), rest, s), f, x);
        }
        assert [] + CommittedEdits(Requests(w), rest, s) == CommittedEdits(Requests(w), rest, s);
      }
      ListsAreEdited(parse, w', rest, s, f, x);
    }
  }

  lemma CommitMakesRequest(parse: string -> Parsed, w: World, l: Label)
    requires Enabled(parse, w, l) && l.Commit?
    ensures l.id in w.ops && l.id in Requests(w) && Requests(w)[l.id] == w.ops[l.id].req && w.ops[l.id].req.Change?
  {
  }

  // The same for every version in between: the one after so many edits is what these edits make of the first.
  lemma {:induction false} VersionsAreEdited(parse: string -> Parsed, w: World, labels: seq<Label>, s: S.Scope, k: nat,
                                             f: Field, x: string)
    requires Run(parse, w, labels) && k <= |CommittedEdits(Requests(w), labels, s)| && x != ""
    ensures var w' := After(parse, w, labels);
            var edits := CommittedEdits(Requests(w), labels, s);
            && Version(w', s) == Version(w, s) + |edits|
            && (x in ListIn(ListAt(w', s, Version(w, s) + k), f) <==>
                  match LastWord(edits[..k], f, x)
                  case Some(added) => added
                  case None => x in ListIn(Current(w, s), f))
    decreases labels
  {
    hide Do, Enabled, Edited, Requests, LastWord, Version, ListAt;
    var edits := CommittedEdits(Requests(w), labels, s);
    RunVersions(parse, w, labels, s);
    assert LastWord([], f, x) == None by { NoWord(f, x); }
    assert k == 0 ==> edits[..k] == [];
    if labels != [] {
      var l, rest, w' := labels[0], labels[1..], Do(parse, w, labels[0]);
      StepLists(parse, w, l, s);
      VersionsGrow(parse, w, l, s);
      if l.Commit? {
        CommitMakesRequest(parse, w, l);
        CommitVersions(parse, w, l, s);
      }
      var more := CommittedEdits(Requests(w'), rest, s);
      if l.Commit? && w.ops[l.id].req.scope == s {
        var e := w.ops[l.id].req.edit;
        assert edits == [e] + more;
        VersionsAreEdited(parse, w', rest, s, if k == 0 then 0 else k - 1, f, x);
        if k > 0 {
          assert edits[..k] == [e] + more[..k - 1];
          EditedMeans(e, Current(w, s), f, x);
          LastWordAfter(e, more[..k - 1], f, x);
        }
      } else {
        assert edits == more;
        VersionsAreEdited(parse, w', rest, s, k, f, x);
      }
    }
  }

  lemma NoWord(f: Field, x: string)
    ensures LastWord([], f, x) == None
  {
  }

  lemma CommitVersions(parse: string -> Parsed, w: World, l: Label, s: S.Scope)
    requires Enabled(parse, w, l) && l.Commit?
    ensures Version(Do(parse, w, l), s) == Version(w, s) + if w.ops[l.id].req.scope == s then 1 else 0
    ensures Do(parse, w, l).ops[l.id].commit == Version(w, w.ops[l.id].req.scope) + 1
  {
    hide Edited;
  }

  // A run only adds versions.
  lemma {:induction false} RunVersions(parse: string -> Parsed, w: World, labels: seq<Label>, s: S.Scope)
    requires Run(parse, w, labels)
    ensures Version(w, s) <= Version(After(parse, w, labels), s)
    ensures ListAt(After(parse, w, labels), s, Version(w, s)) == Current(w, s)
    ensures forall v: nat :: v <= Version(w, s) ==> ListAt(After(parse, w, labels), s, v) == ListAt(w, s, v)
    decreases labels
  {
    hide Do, Enabled, Version, ListAt;
    if labels != [] {
      VersionsGrow(parse, w, labels[0], s);
      RunVersions(parse, Do(parse, w, labels[0]), labels[1..], s);
    }
  }

  // An operation that has gone past its commit knows the version it made.
  ghost predicate KnowsCommits(w: World) {
    forall id :: id in w.ops && w.ops[id].req.Change? && !w.ops[id].pc.Start? && w.ops[id].pc != Done(false) ==>
      w.ops[id].commit > 0
  }

  lemma StepKnowsCommits(parse: string -> Parsed, w: World, l: Label)
    requires KnowsCommits(w) && Enabled(parse, w, l)
    ensures KnowsCommits(Do(parse, w, l))
  {
    hide F.Apply, Wanted, Pruned, IsStateOf, SnapshotOf, Edited, ToResolve, Merged, Unresolved, SortedInts, StoredUids,
         Version, ListAt, Current;
  }

  function CommitOf(w: World, id: nat): nat {
    if id in w.ops then w.ops[id].commit else 0
  }

  lemma StepCommitOf(parse: string -> Parsed, w: World, l: Label, id: nat)
    requires Enabled(parse, w, l)
    ensures CommitOf(Do(parse, w, l), id) ==
              if l.Commit? && l.id == id then Version(w, w.ops[id].req.scope) + 1
              else CommitOf(w, id)
  {
    hide F.Apply, Wanted, Pruned, IsStateOf, SnapshotOf, Edited, ToResolve, Merged, Unresolved, SortedInts, StoredUids,
         Version, ListAt, Current;
  }

  // Later commits of an operation are past every version there is.
  lemma {:induction false} CommitsAreLater(parse: string -> Parsed, w: World, labels: seq<Label>, id: nat)
    requires Run(parse, w, labels)
    requires var w' := After(parse, w, labels); id in w'.ops && w'.ops[id].req.Change?
    ensures var w' := After(parse, w, labels);
            CommitOf(w', id) == CommitOf(w, id) || CommitOf(w', id) > Version(w, w'.ops[id].req.scope)
    decreases labels
  {
    hide Do, Enabled, Version;
    if labels != [] {
      var l, rest, w1 := labels[0], labels[1..], Do(parse, w, labels[0]);
      CommitsAreLater(parse, w1, rest, id);
      StepCommitOf(parse, w, l, id);
      var scope := After(parse, w, labels).ops[id].req.scope;
      VersionsGrow(parse, w, l, scope);
      if l.Commit? && l.id == id {
        CommitMakesRequest(parse, w, l);
        KeepsRequest(parse, w, l, id);
        RunKeepsRequest(parse, w1, rest, id);
      }
    }
  }

  lemma {:induction false} RunKeepsRequest(parse: string -> Parsed, w: World, labels: seq<Label>, id: nat)
    requires Run(parse, w, labels) && id in w.ops
    ensures var w' := After(parse, w, labels); id in w'.ops && w'.ops[id].req == w.ops[id].req
    decreases labels
  {
    hide Do, Enabled;
    if labels != [] {
      KeepsRequest(parse, w, labels[0], id);
      RunKeepsRequest(parse, Do(parse, w, labels[0]), labels[1..], id);
    }
  }

  lemma CommitsAreVersions(parse: string -> Parsed, w: World, id: nat)
    requires Inv(parse, w) && id in w.ops && w.ops[id].req.Change?
    ensures w.ops[id].commit <= Version(w, w.ops[id].req.scope)
  {
    hide Version;
    InvParts(parse, w);
    assert OwnCommit(w, w.ops[id]);
  }

  // The edit that made an operation's version is its own.
  lemma {:induction false} OwnEdit(parse: string -> Parsed, w: World, labels: seq<Label>, id: nat)
    requires Inv(parse, w) && Run(parse, w, labels)
    requires var w' := After(parse, w, labels);
             && id in w'.ops && w'.ops[id].req.Change? && w'.ops[id].commit > Version(w, w'.ops[id].req.scope)
    ensures var op := After(parse, w, labels).ops[id];
            var edits := CommittedEdits(Requests(w), labels, op.req.scope);
            var k := op.commit - Version(w, op.req.scope) - 1;
            0 <= k < |edits| && edits[k] == op.req.edit
    decreases labels
  {
    hide Do, Enabled, Version, Inv, Requests, Edited;
    var op := After(parse, w, labels).ops[id];
    var s := op.req.scope;
    if labels == [] {
      CommitsAreVersions(parse, w, id);
    } else {
      var l, rest, w' := labels[0], labels[1..], Do(parse, w, labels[0]);
      StepKeepsInv(parse, w, l);
      StepLists(parse, w, l, s);
      VersionsGrow(parse, w, l, s);
      if l.Commit? {
        CommitMakesRequest(parse, w, l);
        CommitVersions(parse, w, l, s);
      }
      if op.commit > Version(w', s) {
        OwnEdit(parse, w', rest, id);
      } else {
        MadeNow(parse, w, l, rest, id);
      }
    }
  }

  // The operation whose commit is the next version is the one that commits next.
  lemma MadeNow(parse: string -> Parsed, w: World, l: Label, rest: seq<Label>, id: nat)
    requires Inv(parse, w) && Enabled(parse, w, l) && Run(parse, Do(parse, w, l), rest)
    requires var w' := After(parse, Do(parse, w, l), rest);
             && id in w'.ops && w'.ops[id].req.Change?
             && Version(w, w'.ops[id].req.scope) < w'.ops[id].commit <= Version(Do(parse, w, l), w'.ops[id].req.scope)
    ensures l.Commit? && l.id == id && id in w.ops
    ensures w.ops[id].req == After(parse, Do(parse, w, l), rest).ops[id].req
    ensures After(parse, Do(parse, w, l), rest).ops[id].commit == Version(w, w.ops[id].req.scope) + 1
  {
    hide Do, Enabled, Version, Inv, Run, After;
    var w1 := Do(parse, w, l);
    CommitsAreLater(parse, w1, rest, id);
    StepCommitOf(parse, w, l, id);
    InvParts(parse, w);
    if id in w.ops {
      assert OwnCommit(w, w.ops[id]);
      KeepsRequest(parse, w, l, id);
      RunKeepsRequest(parse, w1, rest, id);
    }
    if l.Commit? {
      CommitMakesRequest(parse, w, l);
    }
  }

  lemma {:induction false} RunKnowsCommits(parse: string -> Parsed, w: World, labels: seq<Label>)
    requires KnowsCommits(w) && Run(parse, w, labels)
    ensures KnowsCommits(After(parse, w, labels))
    decreases labels
  {
    hide Do, Enabled, KnowsCommits;
    if labels != [] {
      StepKnowsCommits(parse, w, labels[0]);
      RunKnowsCommits(parse, Do(parse, w, labels[0]), labels[1..]);
    }
  }

  // When an add or a remove has returned success, what is live was built from a list of its scope that is what the
  // first k edits committed in the run make of the list before it, item by item, and its own edit is among them.
  lemma WritesAreRead(parse: string -> Parsed, w0: World, labels: seq<Label>, id: nat) returns (k: nat)
    requires Initial(w0) && Run(parse, w0, labels)
    requires var w := After(parse, w0, labels); id in w.ops && w.ops[id].req.Change? && w.ops[id].pc == Done(true)
    ensures var w := After(parse, w0, labels);
            var s := w.ops[id].req.scope;
            var edits := CommittedEdits(Requests(w0), labels, s);
            && k <= |edits| && w.ops[id].req.edit in edits[..k] && w.live.Some?
            && forall f, x :: x != "" ==>
                 (x in ListIn(ReadList(w.live.value.reading, s), f) <==>
                   match LastWord(edits[..k], f, x)
                   case Some(added) => added
                   case None => x in ListIn(Current(w0, s), f))
  {
    hide Do, Enabled, Run, After, Inv, Version, ListAt, ReadVersion, ReadList, LastWord, Requests, CommittedEdits,
         Faithful;
    var w := After(parse, w0, labels);
    var op := w.ops[id];
    var s := op.req.scope;
    InitialInv(parse, w0);
    RunKeepsInv(parse, w0, labels);
    InvParts(parse, w);
    ReadYourWrites(parse, w0, labels, id);
    StartKnows(parse, w0, labels, id);
    OwnEdit(parse, w0, labels, id);
    var edits := CommittedEdits(Requests(w0), labels, s);
    var v := ReadVersion(w.live.value.reading, s).value;
    ReadingHolds(w, w.live.value.reading, s);
    k := v - Version(w0, s);
    VersionsAreEdited(parse, w0, labels, s, 0, Domains, "x");
    forall f, x | x != ""
      ensures x in ListIn(ReadList(w.live.value.reading, s), f) <==>
                match LastWord(edits[..k], f, x)
                case Some(added) => added
                case None => x in ListIn(Current(w0, s), f)
    {
      VersionsAreEdited(parse, w0, labels, s, k, f, x);
    }
    assert edits[..k][op.commit - Version(w0, s) - 1] == op.req.edit;
  }

  lemma ReadingHolds(w: World, r: Reading, s: S.Scope)
    requires Faithful(w, r) && ReadVersion(r, s).Some?
    ensures ReadVersion(r, s).value <= Version(w, s) && ReadList(r, s) == ListAt(w, s, ReadVersion(r, s).value)
  {
  }

  // Operations all start within the run, so their commits are past the versions there were.
  lemma StartKnows(parse: string -> Parsed, w0: World, labels: seq<Label>, id: nat)
    requires Initial(w0) && Run(parse, w0, labels)
    requires var w := After(parse, w0, labels); id in w.ops && w.ops[id].req.Change? && w.ops[id].pc == Done(true)
    ensures var w := After(parse, w0, labels); w.ops[id].commit > Version(w0, w.ops[id].req.scope)
  {
    hide Do, Enabled, Run, After, Version;
    RunKnowsCommits(parse, w0, labels);
    CommitsAreLater(parse, w0, labels, id);
  }

  // ---------- Cache ----------

  function Answered(w: World): map<nat, map<string, Resolved>> {
    map id | id in w.ops && w.ops[id].pc.Queued2? :: w.ops[id].pc.resolved
  }

  // Some list that was read names the domain.
  predicate ReadsDomain(r: Reading, d: string) {
    || (r.global.Some? && d in r.global.value.list.domains)
    || exists uid :: uid in r.users && d in r.users[uid].list.domains
  }

  // What the cache holds for a domain after the run: the addresses and the expiry of the last answer merged for it,
  // unless an Apply since was built from lists that do not name it. A failed lookup is no answer.
  ghost function Remembered(parse: string -> Parsed, w: World, labels: seq<Label>, d: string,
                            answered: map<nat, map<string, Resolved>>, entry: Option<CacheEntry>): Option<CacheEntry>
    requires Run(parse, w, labels)
    decreases labels
  {
    if labels == [] then entry
    else
      var l, rest, w' := labels[0], labels[1..], Do(parse, w, labels[0]);
      match l
      case Answers(id, resolved, _) => Remembered(parse, w', rest, d, answered[id := resolved], entry)
      case Lock2(id, expires) =>
        Remembered(parse, w', rest, d, answered,
          if id in answered && d in answered[id] then Some(CacheEntry(answered[id][d], expires)) else entry)
      case ApplyFast(id, _, _, _) =>
        Remembered(parse, w', rest, d, answered, if ReadsDomain(w.ops[id].pc.reading, d) then entry else None)
      case ApplySlow(id, _, _) =>
        Remembered(parse, w', rest, d, answered, if ReadsDomain(w.ops[id].pc.reading, d) then entry else None)
      case _ => Remembered(parse, w', rest, d, answered, entry)
  }

  function EntryOf(cache: Cache, d: string): Option<CacheEntry> {
    if d in cache then Some(cache[d]) else None
  }

  lemma WantedIsRead(r: Reading, d: string)
    requires Complete(r)
    ensures d in Wanted(SnapshotOf(r)) <==> ReadsDomain(r, d)
  {
    var s := SnapshotOf(r);
    if d in Wanted(s) && d !in s.global.domains {
      var uid :| uid in s.users && d in s.users[uid].domains;
      assert d in r.users[uid].list.domains;
    }
    if uid :| uid in r.users && d in r.users[uid].list.domains {
      assert uid in s.users && d in s.users[uid].domains;
    }
  }

  // How one step changes the cache.
  lemma StepCaches(parse: string -> Parsed, w: World, l: Label, d: string)
    requires Enabled(parse, w, l)
    ensures EntryOf(Do(parse, w, l).cache, d) ==
              if l.Lock2? then
                var resolved := w.ops[l.id].pc.resolved;
                if d in resolved then Some(CacheEntry(resolved[d], l.expires)) else EntryOf(w.cache, d)
              else if l.ApplyFast? || l.ApplySlow? then
                if ReadsDomain(w.ops[l.id].pc.reading, d) then EntryOf(w.cache, d) else None
              else EntryOf(w.cache, d)
  {
    hide F.Apply, Wanted, IsStateOf, SnapshotOf, Edited, ToResolve, Unresolved, SortedInts, StoredUids, Version, ListAt;
    if l.ApplyFast? || l.ApplySlow? {
      WantedIsRead(w.ops[l.id].pc.reading, d);
    }
  }

  // The answers that are on their way to the cache are those of the labels.
  lemma StepAnswers(parse: string -> Parsed, w: World, l: Label, id: nat)
    requires Enabled(parse, w, l)
    ensures var w' := Do(parse, w, l);
            id in w'.ops && w'.ops[id].pc.Queued2? ==>
              if l.Answers? && l.id == id then w'.ops[id].pc.resolved == l.resolved
              else id in w.ops && w.ops[id].pc == w'.ops[id].pc
  {
    hide F.Apply, Wanted, Pruned, IsStateOf, SnapshotOf, Edited, ToResolve, Merged, Unresolved, SortedInts, StoredUids,
         Version, ListAt, Current;
  }

  ghost predicate Knows(w: World, answered: map<nat, map<string, Resolved>>) {
    forall id :: id in w.ops && w.ops[id].pc.Queued2? ==> id in answered && answered[id] == w.ops[id].pc.resolved
  }

  // Domain by domain, the cache is what the merged answers make of the one before the run.
  lemma {:induction false} CacheIsRemembered(parse: string -> Parsed, w: World, labels: seq<Label>, d: string,
                                             answered: map<nat, map<string, Resolved>>)
    requires Run(parse, w, labels) && Knows(w, answered)
    ensures EntryOf(After(parse, w, labels).cache, d)
         == Remembered(parse, w, labels, d, answered, EntryOf(w.cache, d))
    decreases labels
  {
    hide Do, Enabled, EntryOf, ReadsDomain;
    if labels != [] {
      var l, rest, w' := labels[0], labels[1..], Do(parse, w, labels[0]);
      var answered' := if l.Answers? then answered[l.id := l.resolved] else answered;
      forall id | id in w'.ops && w'.ops[id].pc.Queued2?
        ensures id in answered' && answered'[id] == w'.ops[id].pc.resolved
      {
        StepAnswers(parse, w, l, id);
      }
      StepCaches(parse, w, l, d);
      if l.Lock2? {
        MergesItsAnswers(parse, w, l);
      }
      CacheIsRemembered(parse, w', rest, d, answered');
    }
  }

  lemma MergesItsAnswers(parse: string -> Parsed, w: World, l: Label)
    requires Enabled(parse, w, l) && l.Lock2?
    ensures l.id in w.ops && w.ops[l.id].pc.Queued2?
  {
  }

  // ---------- Failures ----------

  // Whether the last lookup of the domain that was answered failed.
  function LastFailed(labels: seq<Label>, d: string): bool {
    if labels == [] then false
    else
      var l := labels[|labels| - 1];
      if Answer(l, d) then d in l.failures
      else LastFailed(labels[..|labels| - 1], d)
  }

  lemma {:induction false} LastFailedAfter(l: Label, labels: seq<Label>, d: string)
    ensures LastFailed([l] + labels, d) ==
              if exists k :: 0 <= k < |labels| && Answer(labels[k], d) then LastFailed(labels, d)
              else Answer(l, d) && d in l.failures
  {
    var all := [l] + labels;
    if labels == [] {
      assert all[..0] == [];
    } else {
      var last := labels[|labels| - 1];
      assert all[..|all| - 1] == [l] + labels[..|labels| - 1];
      LastFailedAfter(l, labels[..|labels| - 1], d);
      if Answer(last, d) {
        assert Answer(labels[|labels| - 1], d);
      } else {
        var init := labels[..|labels| - 1];
        assert (exists k :: 0 <= k < |labels| && Answer(labels[k], d)) <==>
               (exists k :: 0 <= k < |init| && Answer(init[k], d)) by {
          forall k | 0 <= k < |labels| && Answer(labels[k], d) ensures k < |init| && Answer(init[k], d) {
          }
          forall k | 0 <= k < |init| && Answer(init[k], d) ensures Answer(labels[k], d) {
          }
        }
      }
    }
  }

  predicate Answer(l: Label, d: string) {
    l.Answers? && (d in l.resolved || d in l.failures)
  }

  lemma StepFails(parse: string -> Parsed, w: World, l: Label, d: string)
    requires Enabled(parse, w, l)
    ensures d in Do(parse, w, l).failed <==> if Answer(l, d) then d in l.failures else d in w.failed
  {
    hide F.Apply, Wanted, Pruned, IsStateOf, SnapshotOf, Edited, ToResolve, Merged, Unresolved, SortedInts, StoredUids,
         Version, ListAt, Current;
  }

  lemma {:induction false} FailedIs(parse: string -> Parsed, w: World, labels: seq<Label>, d: string)
    requires Run(parse, w, labels)
    ensures d in After(parse, w, labels).failed <==>
              if exists k :: 0 <= k < |labels| && Answer(labels[k], d) then LastFailed(labels, d) else d in w.failed
    decreases labels
  {
    hide Do, Enabled, LastFailed, Answer;
    if labels != [] {
      var l, rest := labels[0], labels[1..];
      StepFails(parse, w, l, d);
      FailedIs(parse, Do(parse, w, l), rest, d);
      assert labels == [l] + rest;
      LastFailedAfter(l, rest, d);
      if k :| 0 <= k < |rest| && Answer(rest[k], d) {
        assert Answer(labels[k + 1], d);
      }
      if k :| 0 <= k < |labels| && Answer(labels[k], d) {
        assert k > 0 ==> Answer(rest[k - 1], d);
      }
      FailedOnlyAnswered(l, d);
    }
  }

  lemma FailedOnlyAnswered(l: Label, d: string)
    ensures Answer(l, d) ==> l.Answers?
  {
  }

  // At rest, with no read of a first section failed, a stored domain that has no cached addresses is one whose last
  // lookup failed.
  lemma UncachedFailed(parse: string -> Parsed, w0: World, labels: seq<Label>, s: S.Scope, d: string)
    requires Initial(w0) && Run(parse, w0, labels) && FirstReadsSucceed(parse, w0, labels)
    requires var w := After(parse, w0, labels); AtRest(w) && d in Current(w, s).domains && d !in w.cache
    ensures LastFailed(labels, d)
  {
    hide Do, Enabled, Run, After, Current, Inv, Wanted, CurrentSnapshot, FirstReadsSucceed, LastFailed, Answer;
    var w := After(parse, w0, labels);
    InitialInv(parse, w0);
    RunKeepsInv(parse, w0, labels);
    InvParts(parse, w);
    assert Stored(w, s, d);
    WantedIsStored(w, d);
    DomainCoverage(parse, w0, labels, d);
    FailedIs(parse, w0, labels, d);
  }

  // ---------- Packets ----------

  // The address is that of a listed IP, or in the last answer merged for a listed domain.
  ghost predicate Blocked(parse: string -> Parsed, w0: World, labels: seq<Label>, s: S.Scope, f: Family, a: Addr)
    requires Run(parse, w0, labels)
  {
    || (exists ip :: Listed(w0, labels, s, Ips, ip) && parse(ip) == Canonical(f, a))
    || (exists d :: Listed(w0, labels, s, Domains, d) && KnownAddress(parse, w0, labels, d, f, a))
  }

  ghost predicate KnownAddress(parse: string -> Parsed, w0: World, labels: seq<Label>, d: string, f: Family, a: Addr)
    requires Run(parse, w0, labels)
  {
    var entry := Remembered(parse, w0, labels, d, map[], None);
    entry.Some? && a in (if f == V4 then entry.value.res.v4 else entry.value.res.v6)
  }

  // The store of an earlier daemon holds no empty items.
  ghost predicate NoEmptyItems(w: World) {
    forall s, f :: "" !in ListIn(Current(w, s), f)
  }

  // What the store and the cache stand for, told from the labels.
  lemma CoversIff(parse: string -> Parsed, w0: World, labels: seq<Label>, s: S.Scope, f: Family, a: Addr)
    requires Initial(w0) && NoEmptyItems(w0) && Run(parse, w0, labels)
    ensures var w := After(parse, w0, labels);
            Covers(Current(w, s), w.cache, parse, f, a) <==> Blocked(parse, w0, labels, s, f, a)
  {
    hide Do, Enabled, Run, After, Current, Listed, Remembered;
    var w := After(parse, w0, labels);
    forall x ensures x in Current(w, s).ips <==> Listed(w0, labels, s, Ips, x) {
      ListsAreEdited(parse, w0, labels, s, Ips, x);
    }
    forall x ensures x in Current(w, s).domains <==> Listed(w0, labels, s, Domains, x) {
      ListsAreEdited(parse, w0, labels, s, Domains, x);
    }
    forall d ensures EntryOf(w.cache, d) == Remembered(parse, w0, labels, d, map[], None) {
      CacheIsRemembered(parse, w0, labels, d, map[]);
    }
    if Covers(Current(w, s), w.cache, parse, f, a) {
      if ip :| ip in Current(w, s).ips && parse(ip) == Canonical(f, a) {
        assert Listed(w0, labels, s, Ips, ip);
      } else {
        var d :| d in Current(w, s).domains && d in w.cache && a in w.cache[d].res.Of(f);
        assert Listed(w0, labels, s, Domains, d) && KnownAddress(parse, w0, labels, d, f, a);
      }
    }
    if ip :| Listed(w0, labels, s, Ips, ip) && parse(ip) == Canonical(f, a) {
      assert ip in Current(w, s).ips;
    }
    if d :| Listed(w0, labels, s, Domains, d) && KnownAddress(parse, w0, labels, d, f, a) {
      assert d in Current(w, s).domains && EntryOf(w.cache, d).Some?;
    }
  }

  // From the requests to the packets: at rest after a successful section the kernel drops a packet exactly when its
  // destination is that of an IP, or in the last merged answer of a domain, that the edits committed to the global list
  // or to the list of its owner leave listed.
  lemma DroppedIff(parse: string -> Parsed, w0: World, labels: seq<Label>, p: Packet)
    requires Initial(w0) && NoEmptyItems(w0) && Run(parse, w0, labels)
    requires var w := After(parse, w0, labels); AtRest(w) && w.lastOk
    ensures F.Drops(After(parse, w0, labels).firewall, p) <==>
              || Blocked(parse, w0, labels, S.Global, p.family, p.dst)
              || Blocked(parse, w0, labels, S.User(p.uid), p.family, p.dst)
  {
    hide Do, Enabled, Run, After, Current, Blocked, F.Drops, Covers, NoEmptyItems, Initial, AtRest;
    FirewallFollowsStore(parse, w0, labels, p);
    CoversIff(parse, w0, labels, S.Global, p.family, p.dst);
    CoversIff(parse, w0, labels, S.User(p.uid), p.family, p.dst);
  }

  // An address that was added, and not removed since, is dropped.
  lemma AddedIsDropped(parse: string -> Parsed, w0: World, labels: seq<Label>, s: S.Scope, ip: string, p: Packet)
    requires Initial(w0) && NoEmptyItems(w0) && Run(parse, w0, labels)
    requires var w := After(parse, w0, labels); AtRest(w) && w.lastOk
    requires ip != "" && LastWord(CommittedEdits(Requests(w0), labels, s), Ips, ip) == Some(true)
    requires parse(ip) == Canonical(p.family, p.dst) && (s.Global? || s.uid == p.uid)
    ensures F.Drops(After(parse, w0, labels).firewall, p)
  {
    hide Do, Enabled, Run, After, Current, F.Drops, NoEmptyItems, Initial, AtRest, Requests, CommittedEdits;
    DroppedIff(parse, w0, labels, p);
    assert Listed(w0, labels, s, Ips, ip);
    assert Blocked(parse, w0, labels, s, p.family, p.dst);
  }

  // So is every address of the last merged answer for a domain that was added and not removed since.
  lemma AnsweredIsDropped(parse: string -> Parsed, w0: World, labels: seq<Label>, s: S.Scope, d: string, p: Packet)
    requires Initial(w0) && NoEmptyItems(w0) && Run(parse, w0, labels)
    requires var w := After(parse, w0, labels); AtRest(w) && w.lastOk
    requires d != "" && LastWord(CommittedEdits(Requests(w0), labels, s), Domains, d) == Some(true)
    requires KnownAddress(parse, w0, labels, d, p.family, p.dst) && (s.Global? || s.uid == p.uid)
    ensures F.Drops(After(parse, w0, labels).firewall, p)
  {
    hide Do, Enabled, Run, After, Current, F.Drops, NoEmptyItems, Initial, AtRest, Requests, CommittedEdits,
         KnownAddress;
    DroppedIff(parse, w0, labels, p);
    assert Listed(w0, labels, s, Domains, d);
    assert Blocked(parse, w0, labels, s, p.family, p.dst);
  }

  // ---------- What is looked up ----------

  // A first section goes on to look up exactly the domains it read that are not cached, and, for a refresh, the cached
  // ones past their expiry or, at startup, all; only if there are none does it apply at once.
  lemma LooksUpIff(parse: string -> Parsed, w: World, id: nat, now: int, d: string, state: State, faults: F.Faults)
    requires id in w.ops && w.ops[id].pc.Loading1? && Complete(w.ops[id].pc.reading)
    ensures var due := Due(w, w.ops[id], now, d);
            && (Enabled(parse, w, GoResolve(id, now)) ==>
                  (d in Do(parse, w, GoResolve(id, now)).ops[id].pc.want <==> due))
            && (due ==> Enabled(parse, w, GoResolve(id, now)) && !Enabled(parse, w, ApplyFast(id, now, state, faults)))
  {
    hide Wanted, SnapshotOf, Builds, F.Apply;
    WantedIsRead(w.ops[id].pc.reading, d);
    assert Due(w, w.ops[id], now, d) ==> d in Unresolved(w, w.ops[id], w.ops[id].pc.reading, now);
  }

  lemma {:induction false} StartupResolvesAll(parse: string -> Parsed, w: World, labels: seq<Label>)
    requires Run(parse, w, labels) && 0 in w.ops && w.ops[0].req == Refresh(ResolveAll)
    ensures var w' := After(parse, w, labels); 0 in w'.ops && w'.ops[0].req == Refresh(ResolveAll)
    decreases labels
  {
    hide Do, Enabled;
    if labels != [] {
      KeepsRequest(parse, w, labels[0], 0);
      StartupResolvesAll(parse, Do(parse, w, labels[0]), labels[1..]);
    }
  }

  lemma KeepsRequest(parse: string -> Parsed, w: World, l: Label, id: nat)
    requires Enabled(parse, w, l) && id in w.ops
    ensures id in Do(parse, w, l).ops && Do(parse, w, l).ops[id].req == w.ops[id].req
  {
    StepLists(parse, w, l, S.Global);
    assert id in Requests(w) && Requests(w)[id] == w.ops[id].req;
    assert id in Requests(Do(parse, w, l));
    hide Do;
  }

  // The rebuild at startup looks up every stored domain, cached or not, but for those of commits it missed, whose own
  // rebuild is still to come.
  lemma StartupLooksUpAll(parse: string -> Parsed, w0: World, labels: seq<Label>, now: int, s: S.Scope, d: string)
    requires Initial(w0) && Run(parse, w0, labels)
    requires var w := After(parse, w0, labels);
             && 0 in w.ops && w.ops[0].pc.Loading1? && Complete(w.ops[0].pc.reading)
             && d in Current(w, s).domains
    ensures var w := After(parse, w0, labels);
            || Waiting(w)
            || (Enabled(parse, w, GoResolve(0, now)) && d in Do(parse, w, GoResolve(0, now)).ops[0].pc.want)
  {
    hide Do, Enabled, Run, After, Current, Inv, Wanted, SnapshotOf, Waiting, Initial;
    var w := After(parse, w0, labels);
    InitialInv(parse, w0);
    RunKeepsInv(parse, w0, labels);
    InvParts(parse, w);
    StartsWithAll(w0);
    StartupResolvesAll(parse, w0, labels);
    if d in Wanted(SnapshotOf(w.ops[0].pc.reading)) {
      WantedIsRead(w.ops[0].pc.reading, d);
      LooksUpIff(parse, w, 0, now, d, State(IPSet([], []), map[]), NO_FAULTS);
    } else {
      assert Stored(w, s, d);
      UnseenIsWaiting(w, 0, s, d);
    }
  }

  lemma StartsWithAll(w: World)
    requires Initial(w)
    ensures 0 in w.ops && w.ops[0].req == Refresh(ResolveAll)
  {
  }

  predicate Due(w: World, op: Op, now: int, d: string)
    requires IsLoading(op.pc)
  {
    && ReadsDomain(op.pc.reading, d)
    && (|| d !in w.cache
        || op.req == Refresh(ResolveAll)
        || (op.req == Refresh(ResolveExpired) && now > w.cache[d].expires))
  }
}
