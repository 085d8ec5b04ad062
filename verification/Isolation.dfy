/** Users cannot interfere with each other: a two-run theorem over whole histories of requests. */
module Isolation {
  import opened Wrappers
  import opened Sorting
  import opened Backend
  import opened Lists
  import opened Validate
  import opened Authz
  import opened Handlers
  import E = Engine
  import R = RateLimit
  import S = Store

  ghost function After(env: Env, sys: Sys, evs: seq<Event>): Sys
    decreases |evs|
  {
    if evs == [] then sys else After(env, Serve(env, sys, evs[0]).0, evs[1..])
  }

  // What the daemon answered the user, in order.
  ghost function AnswersTo(env: Env, sys: Sys, evs: seq<Event>, u: Uid): seq<Response>
    decreases |evs|
  {
    if evs == [] then []
    else
      var (sys', response) := Serve(env, sys, evs[0]);
      (if evs[0].caller == u then [response] else []) + AnswersTo(env, sys', evs[1..], u)
  }

  predicate Matters(ev: Event, u: Uid) {
    ev.caller == 0 || ev.caller == u
  }

  // The history without the requests of anyone but root and the user.
  function Purged(evs: seq<Event>, u: Uid): seq<Event> {
    if evs == [] then [] else (if Matters(evs[0], u) then [evs[0]] else []) + Purged(evs[1..], u)
  }

  ghost predicate SameFor<K, V>(a: map<K, V>, b: map<K, V>, k: K) {
    (k in a <==> k in b) && (k in a ==> a[k] == b[k])
  }

  // The lists the user can see, and those that no caller but root reaches, of uids that are none of the kernel's.
  ghost predicate ListsAlike(a: StoredLists, b: StoredLists, u: Uid) {
    && SameFor(a, b, S.Global) && SameFor(a, b, S.User(u))
    && forall uid :: !(0 <= uid < 0x1_0000_0000) ==> SameFor(a, b, S.User(uid))
  }

  // What the user can see of the system, and what bears on it.
  ghost predicate Alike(a: Sys, b: Sys, u: Uid) {
    && ListsAlike(a.lists, b.lists, u)
    && SameFor(a.windows, b.windows, 0) && SameFor(a.windows, b.windows, u)
  }

  // A request touches the window of its caller only.
  lemma OneWindow(env: Env, sys: Sys, ev: Event)
    ensures forall uid :: uid != ev.caller ==> SameFor(sys.windows, Serve(env, sys, ev).0.windows, uid)
  {
    hide DispatchSpec;
  }

  // A caller other than root touches its own list only.
  lemma OneList(env: Env, sys: Sys, ev: Event)
    requires ev.caller != 0
    ensures forall s :: s != S.User(ev.caller) ==> SameFor(sys.lists, Serve(env, sys, ev).0.lists, s)
  {
    hide Edited, Changes, DaemonChecked, ShowSpec, MessageOf;
  }

  // What others do cannot be seen.
  lemma OthersInvisible(env: Env, sys: Sys, ev: Event, u: Uid)
    requires !Matters(ev, u)
    ensures Alike(sys, Serve(env, sys, ev).0, u)
  {
    hide Serve;
    OneWindow(env, sys, ev);
    OneList(env, sys, ev);
  }

  lemma SameVerdicts(env: Env, a: R.Windows, b: R.Windows, r: R.Request)
    requires SameFor(a, b, r.uid)
    ensures R.Verdict(env.limits, a, r) == R.Verdict(env.limits, b, r)
    ensures forall uid :: SameFor(a, b, uid) ==> SameFor(R.Next(env.limits, a, r), R.Next(env.limits, b, r), uid)
  {
  }

  // Whose list it is: the user's own, or one that only root can change.
  predicate Shared(s: S.Scope, u: Uid) {
    s.Global? || s.uid == u || !(0 <= s.uid < 0x1_0000_0000)
  }

  ghost predicate SharedFit(env: Env, lists: StoredLists, ev: Event, u: Uid) {
    forall s :: Shared(s, u) ==> Fits(env, lists, ev.cache, s)
  }

  // The backend refuses nothing of the other users' lists, at the addresses the cache gives their domains.
  ghost predicate OthersFit(env: Env, lists: StoredLists, ev: Event, u: Uid) {
    forall s :: !Shared(s, u) ==> Fits(env, lists, ev.cache, s)
  }

  lemma RebuildsSplit(env: Env, lists: StoredLists, ev: Event, u: Uid)
    ensures Rebuilds(env, lists, ev) <==> !ev.fault && SharedFit(env, lists, ev, u) && OthersFit(env, lists, ev, u)
  {
    hide Fits;
  }

  // nft refuses nothing that a caller other than root can store.
  lemma NftTakesOthers(env: Env, lists: StoredLists, ev: Event, u: Uid)
    requires env.backend.Nftables?
    ensures OthersFit(env, lists, ev, u)
  {
    hide E.AddressesOf;
  }

  lemma SharedAlike(env: Env, a: StoredLists, b: StoredLists, ev: Event, u: Uid)
    requires ListsAlike(a, b, u)
    ensures SharedFit(env, a, ev, u) <==> SharedFit(env, b, ev, u)
  {
    hide E.ListLoads;
    forall s | Shared(s, u) ensures Fits(env, a, ev.cache, s) <==> Fits(env, b, ev.cache, s) {
    }
  }

  // The request gets as far as a rebuild, of these lists.
  ghost predicate Reaches(env: Env, sys: Sys, ev: Event) {
    && ev.request.Some? && R.Verdict(env.limits, sys.windows, R.Request(ev.caller, ev.now))
    && ev.request.value.version <= VERSION
    && (ev.request.value.action.AddEntries? || ev.request.value.action.RemoveEntries?)
    && PlanOf(env, ev.caller, ev.request.value).Go? && Saves(ev)
  }

  // Of two systems alike for the user: whether other users' lists are refused makes no difference to its request.
  ghost predicate Undisturbed(env: Env, a: Sys, b: Sys, ev: Event, u: Uid) {
    Reaches(env, a, ev) && !ev.fault && SharedFit(env, Serve(env, a, ev).0.lists, ev, u) ==>
      (OthersFit(env, a.lists, ev, u) <==> OthersFit(env, b.lists, ev, u))
  }

  // Root and the user do the same to systems that are alike.
  lemma DispatchAlike(env: Env, a: StoredLists, b: StoredLists, ev: Event, u: Uid)
    requires ListsAlike(a, b, u) && Matters(ev, u) && ev.request.Some? && u != 0
    ensures ListsAlike(DispatchSpec(env, a, ev).0, DispatchSpec(env, b, ev).0, u)
  {
    hide Edited, Changes, DaemonChecked, MessageOf, ShowSpec, Rebuilds;
  }

  lemma ServeAlike(env: Env, a: Sys, b: Sys, ev: Event, u: Uid)
    requires Alike(a, b, u) && Matters(ev, u) && u != 0
    ensures Alike(Serve(env, a, ev).0, Serve(env, b, ev).0, u)
  {
    hide DispatchSpec;
    SameVerdicts(env, a.windows, b.windows, R.Request(ev.caller, ev.now));
    if ev.request.Some? {
      DispatchAlike(env, a.lists, b.lists, ev, u);
    }
  }

  // A request that gets to no rebuild is answered the same.
  lemma AnsweredAlike(env: Env, a: Sys, b: Sys, ev: Event, u: Uid)
    requires Alike(a, b, u) && ev.caller == u != 0 && !Reaches(env, a, ev)
    ensures Serve(env, a, ev).1 == Serve(env, b, ev).1
  {
    hide Edited, Changes, DaemonChecked, MessageOf, Rebuilds, ResolveScope, UserViews;
  }

  // One that does, by whether the two rebuilds succeed.
  lemma RebuildAnswers(env: Env, a: Sys, b: Sys, ev: Event, u: Uid)
    requires Alike(a, b, u) && ev.caller == u != 0 && Reaches(env, a, ev)
    ensures var (a', ra), (b', rb) := Serve(env, a, ev), Serve(env, b, ev);
            && (ra == rb <==> (Rebuilds(env, a'.lists, ev) <==> Rebuilds(env, b'.lists, ev)))
            && ListsAlike(a'.lists, b'.lists, u)
            && (OthersFit(env, a'.lists, ev, u) <==> OthersFit(env, a.lists, ev, u))
            && (OthersFit(env, b'.lists, ev, u) <==> OthersFit(env, b.lists, ev, u))
  {
    hide Edited, Changes, DaemonChecked, Rebuilds, E.ListLoads, MessageOf;
    forall scope, e, n ensures MessageOf(scope, e, n) != ApplyError {
      MessageIsNoError(scope, e, n);
    }
    assert PlanOf(env, u, ev.request.value).scope == S.User(u);
    assert Reaches(env, b, ev) by { SameVerdicts(env, a.windows, b.windows, R.Request(ev.caller, ev.now)); }
    OwnEditOnly(env, a, ev, u);
    OwnEditOnly(env, b, ev, u);
  }

  lemma MessageIsNoError(scope: S.Scope, e: Edit, n: (int, int))
    ensures MessageOf(scope, e, n) != ApplyError
  {
  }

  lemma OwnEditOnly(env: Env, sys: Sys, ev: Event, u: Uid)
    requires ev.caller == u != 0
    ensures OthersFit(env, Serve(env, sys, ev).0.lists, ev, u) <==> OthersFit(env, sys.lists, ev, u)
  {
    hide Serve, E.ListLoads;
    OneList(env, sys, ev);
    forall s | !Shared(s, u)
      ensures Fits(env, Serve(env, sys, ev).0.lists, ev.cache, s) <==> Fits(env, sys.lists, ev.cache, s)
    {
      assert SameFor(sys.lists, Serve(env, sys, ev).0.lists, s);
    }
  }

  // So the user is answered the same exactly when it is undisturbed.
  lemma SameAnswerIff(env: Env, a: Sys, b: Sys, ev: Event, u: Uid)
    requires Alike(a, b, u) && ev.caller == u != 0
    ensures Serve(env, a, ev).1 == Serve(env, b, ev).1 <==> Undisturbed(env, a, b, ev, u)
  {
    hide Serve, Rebuilds, SharedFit, OthersFit, Reaches;
    if Reaches(env, a, ev) {
      RebuildAnswers(env, a, b, ev, u);
      var a', b' := Serve(env, a, ev).0.lists, Serve(env, b, ev).0.lists;
      RebuildsSplit(env, a', ev, u);
      RebuildsSplit(env, b', ev, u);
      SharedAlike(env, a', b', ev, u);
    } else {
      AnsweredAlike(env, a, b, ev, u);
    }
  }

  // At every request of the user, in the history and in the purged one side by side.
  ghost predicate AllUndisturbed(env: Env, a: Sys, b: Sys, evs: seq<Event>, u: Uid)
    decreases |evs|
  {
    evs == []
    || var ev := evs[0];
       if Matters(ev, u) then
         && (ev.caller == u ==> Undisturbed(env, a, b, ev, u))
         && AllUndisturbed(env, Serve(env, a, ev).0, Serve(env, b, ev).0, evs[1..], u)
       else AllUndisturbed(env, Serve(env, a, ev).0, b, evs[1..], u)
  }

  // Deleting from any history all requests of callers other than root and the user leaves alone the user's list, the
  // global list and the user's rate limit, and it leaves alone everything the daemon ever answered the user exactly
  // when at each rebuild the user asked for, whether the backend refused something of other users' lists made no
  // difference.
  lemma {:induction false} AnswersSameIff(env: Env, a: Sys, b: Sys, evs: seq<Event>, u: Uid)
    requires u != 0 && Alike(a, b, u)
    ensures Alike(After(env, a, evs), After(env, b, Purged(evs, u)), u)
    ensures AnswersTo(env, a, evs, u) == AnswersTo(env, b, Purged(evs, u), u) <==> AllUndisturbed(env, a, b, evs, u)
    decreases |evs|
  {
    hide Serve, Alike, Undisturbed;
    if evs != [] {
      var ev, rest := evs[0], evs[1..];
      var a', b' := Serve(env, a, ev).0, Serve(env, b, ev).0;
      if Matters(ev, u) {
        ServeAlike(env, a, b, ev, u);
        AnswersSameIff(env, a', b', rest, u);
        assert Purged(evs, u) == [ev] + Purged(rest, u);
        assert Purged(evs, u)[1..] == Purged(rest, u);
        if ev.caller == u {
          SameAnswerIff(env, a, b, ev, u);
          SameFirst(Serve(env, a, ev).1, AnswersTo(env, a', rest, u),
                    Serve(env, b, ev).1, AnswersTo(env, b', Purged(rest, u), u));
        } else {
          assert AnswersTo(env, a, evs, u) == AnswersTo(env, a', rest, u);
          assert AnswersTo(env, b, Purged(evs, u), u) == AnswersTo(env, b', Purged(rest, u), u);
        }
      } else {
        OthersInvisible(env, a, ev, u);
        AlikeTransitive(a', a, b, u);
        AnswersSameIff(env, a', b, rest, u);
        assert Purged(evs, u) == Purged(rest, u);
        assert AnswersTo(env, a, evs, u) == AnswersTo(env, a', rest, u);
      }
    }
  }

  lemma SameFirst<T>(x: T, xs: seq<T>, y: T, ys: seq<T>)
    ensures [x] + xs == [y] + ys <==> x == y && xs == ys
  {
    assert ([x] + xs)[0] == x && ([x] + xs)[1..] == xs && ([y] + ys)[0] == y && ([y] + ys)[1..] == ys;
  }

  // ---------- With iptables, one user can disturb another ----------

  // A library that takes two texts for IPv4 addresses.
  const LIB := Lib(c => c == ' ', c => c,
                   ip => if ip == "0.0.0.0" || ip == "192.0.2.1" then E.Canonical(V4, ip) else E.NotAnIP)

  const IPTABLES := Env(LIB, _ => None, _ => None, R.Config(20, 10), IptablesIpset)

  const NOTHING_STORED := Sys(map[], map[])

  // A user other than root adds one address to its list.
  function Adds(caller: Uid, ip: string): Event {
    Event(caller, 0, Some(Request(VERSION, AddEntries, [], [ip], "")), ".tmp-1", false, S.Completes, false, map[])
  }

  lemma OneAddressAdded(lists: StoredLists, windows: R.Windows, caller: Uid, ip: string)
    requires caller != 0 && caller !in windows && S.User(caller) !in lists && (ip == "0.0.0.0" || ip == "192.0.2.1")
    ensures var (sys, r) := Serve(IPTABLES, Sys(lists, windows), Adds(caller, ip));
            && sys.windows == windows[caller := R.Window(0, 1)]
            && (exists bl: BlockList :: bl.domains == [] && bl.ips == [ip] && sys.lists == lists[S.User(caller) := bl])
            && r == if Rebuilds(IPTABLES, sys.lists, Adds(caller, ip)) then Changed(true, 0, 1, S.User(caller), None)
                    else ApplyError
  {
    hide Rebuilds, E.ListLoads, PlanOf, Edited, Changes, MessageOf, ShowSpec;
    OneIpPlanned(caller, ip);
    OneIpAdded(ip);
    OneIpReported(caller, ip);
  }

  lemma OneIpPlanned(caller: Uid, ip: string)
    requires caller != 0 && (ip == "0.0.0.0" || ip == "192.0.2.1")
    ensures PlanOf(IPTABLES, caller, Adds(caller, ip).request.value) == Go(S.User(caller), Add([], [ip]))
  {
    OneIpChecked(ip);
  }

  lemma OneIpReported(caller: Uid, ip: string)
    ensures MessageOf(S.User(caller), Add([], [ip]), (0, 1)) == Changed(true, 0, 1, S.User(caller), None)
  {
  }

  lemma OneIpChecked(ip: string)
    requires ip == "0.0.0.0" || ip == "192.0.2.1"
    ensures DaemonChecked(LIB, [], [ip]) == Good(Inputs([], [ip]))
  {
    TrimsNothing(LIB, ip);
    var clean := x => CleanIP(LIB, x);
    assert [ip][..0] == [];
    assert CleanAll(clean, [ip][..0]) == Accepted([]);
    assert clean(ip) == Clean(ip);
    assert [] + [ip] == [ip];
  }

  lemma OneIpAdded(ip: string)
    requires ip != ""
    ensures Edited(Add([], [ip]), EMPTY) == BlockList([], [ip]) && Changes(Add([], [ip]), EMPTY) == (0, 1)
  {
    assert Elements([ip]) == {ip} && Elements<string>([]) == {};
    assert Normal([]) && Normal([ip]);
    assert Elements<string>([]) + Elements<string>([]) == Elements<string>([]);
    assert Elements<string>([]) + Elements([ip]) == Elements([ip]);
    NormalIsCanonical([]);
    NormalIsCanonical([ip]);
  }

  // A user stores 0.0.0.0; from then on another user's request fails that would succeed without it.
  lemma NullAddressDisturbs()
    ensures var evs := [Adds(1000, "0.0.0.0"), Adds(1001, "192.0.2.1")];
            && AnswersTo(IPTABLES, NOTHING_STORED, evs, 1001) == [ApplyError]
            && AnswersTo(IPTABLES, NOTHING_STORED, Purged(evs, 1001), 1001)
               == [Changed(true, 0, 1, S.User(1001), None)]
  {
    hide Serve, Rebuilds;
    var first, second := Adds(1000, "0.0.0.0"), Adds(1001, "192.0.2.1");
    var evs := [first, second];
    OneAddressAdded(map[], map[], 1000, "0.0.0.0");
    var (sys, _) := Serve(IPTABLES, NOTHING_STORED, first);
    OneAddressAdded(sys.lists, sys.windows, 1001, "192.0.2.1");
    var (after, r) := Serve(IPTABLES, sys, second);
    NullRefused(after.lists, 1000, second);
    OneAddressAdded(map[], map[], 1001, "192.0.2.1");
    var (alone, r') := Serve(IPTABLES, NOTHING_STORED, second);
    OneTaken(alone.lists, 1001, second);
    assert evs[1..] == [second] && [second][1..] == [];
    assert Purged(evs, 1001) == [second] by {
      assert Purged([], 1001) == [];
      assert Purged([second], 1001) == [second];
    }
    assert AnswersTo(IPTABLES, sys, [second], 1001) == [r];
    assert AnswersTo(IPTABLES, NOTHING_STORED, [second], 1001) == [r'];
  }

  lemma NullRefused(lists: StoredLists, uid: int, ev: Event)
    requires S.User(uid) in lists && lists[S.User(uid)] == BlockList([], ["0.0.0.0"])
    ensures !Rebuilds(IPTABLES, lists, ev)
  {
    assert "0.0.0.0" in lists[S.User(uid)].ips;
    assert LIB.parse("0.0.0.0") == E.Canonical(V4, "0.0.0.0");
    assert "0.0.0.0" in E.AddressesOf(lists[S.User(uid)], ev.cache, LIB.parse, V4);
    assert !Fits(IPTABLES, lists, ev.cache, S.User(uid));
  }

  lemma OneTaken(lists: StoredLists, uid: int, ev: Event)
    requires lists == map[S.User(uid) := BlockList([], ["192.0.2.1"])] && 0 <= uid < 0xFFFF_FFFF && !ev.fault
    ensures Rebuilds(IPTABLES, lists, ev)
  {
    assert LIB.parse("192.0.2.1") == E.Canonical(V4, "192.0.2.1");
  }

  // ---------- With nft, none can ----------

  // With nft nothing disturbs: the user's lists, limit and answers are those of the purged history.
  lemma UsersAreIsolated(env: Env, a: Sys, b: Sys, evs: seq<Event>, u: Uid)
    requires u != 0 && Alike(a, b, u) && env.backend.Nftables?
    ensures Alike(After(env, a, evs), After(env, b, Purged(evs, u)), u)
    ensures AnswersTo(env, a, evs, u) == AnswersTo(env, b, Purged(evs, u), u)
  {
    AnswersSameIff(env, a, b, evs, u);
    NftUndisturbed(env, a, b, evs, u);
  }

  lemma {:induction false} NftUndisturbed(env: Env, a: Sys, b: Sys, evs: seq<Event>, u: Uid)
    requires env.backend.Nftables?
    ensures AllUndisturbed(env, a, b, evs, u)
    decreases |evs|
  {
    hide Serve, OthersFit, SharedFit, Reaches;
    if evs != [] {
      var ev, rest := evs[0], evs[1..];
      NftTakesOthers(env, a.lists, ev, u);
      NftTakesOthers(env, b.lists, ev, u);
      NftUndisturbed(env, Serve(env, a, ev).0, if Matters(ev, u) then Serve(env, b, ev).0 else b, rest, u);
    }
  }

  lemma AlikeTransitive(a': Sys, a: Sys, b: Sys, u: Uid)
    requires Alike(a, a', u) && Alike(a, b, u)
    ensures Alike(a', b, u)
  {
  }

  // ---------- What is reported ----------

  // The daemon keeps all lists in normal form.
  ghost predicate AllNormal(lists: StoredLists) {
    forall s :: s in lists ==> NormalList(lists[s])
  }

  lemma ServeKeepsNormal(env: Env, sys: Sys, ev: Event)
    requires AllNormal(sys.lists)
    ensures AllNormal(Serve(env, sys, ev).0.lists)
  {
    hide Edited, Changes, DaemonChecked, MessageOf, ShowSpec, NormalList;
    forall e: Edit, bl: BlockList ensures NormalList(Edited(e, bl)) {
      EditedIsNormal(e, bl);
    }
  }

  lemma {:induction false} HistoryKeepsNormal(env: Env, sys: Sys, evs: seq<Event>)
    requires AllNormal(sys.lists)
    ensures AllNormal(After(env, sys, evs).lists)
    decreases |evs|
  {
    hide Serve, AllNormal;
    if evs != [] {
      ServeKeepsNormal(env, sys, evs[0]);
      HistoryKeepsNormal(env, Serve(env, sys, evs[0]).0, evs[1..]);
    }
  }

  // The event asks for an edit of the scope, and gets as far as saving it.
  ghost predicate Edits(env: Env, sys: Sys, ev: Event, scope: S.Scope, e: Edit) {
    Reaches(env, sys, ev) && PlanOf(env, ev.caller, ev.request.value) == Go(scope, e)
  }

  // At any point of any history that began with lists in normal form, an edit is answered with the numbers by which the
  // lists grew or shrank and with how many of the items asked for changed nothing, unless the rebuild did not succeed.
  lemma ReportIsExact(env: Env, start: Sys, evs: seq<Event>, ev: Event, scope: S.Scope, e: Edit)
    requires Sane(env.lib) && AllNormal(start.lists) && Edits(env, After(env, start, evs), ev, scope, e)
    ensures var sys := After(env, start, evs);
            var (sys', r) := Serve(env, sys, ev);
            r == if Rebuilds(env, sys'.lists, ev) then ExactReport(scope, e, sys.lists, sys'.lists) else ApplyError
  {
    hide Sane, Serve, AllNormal;
    HistoryKeepsNormal(env, start, evs);
    EditReport(env, After(env, start, evs), ev, scope, e);
  }

  function ExactReport(scope: S.Scope, e: Edit, before: StoredLists, now: StoredLists): Response {
    var old_, new_ := S.Lookup(before, scope), S.Lookup(now, scope);
    var domains := Grown(e.Add?, |old_.domains|, |new_.domains|);
    var ips := Grown(e.Add?, |old_.ips|, |new_.ips|);
    var asked := |e.domains| + |e.ips|;
    Changed(e.Add?, domains, ips, scope, if asked == domains + ips then None else Some(asked - domains - ips))
  }

  lemma EditReport(env: Env, sys: Sys, ev: Event, scope: S.Scope, e: Edit)
    requires Sane(env.lib) && AllNormal(sys.lists) && Edits(env, sys, ev, scope, e)
    ensures var (sys', r) := Serve(env, sys, ev);
            r == if Rebuilds(env, sys'.lists, ev) then ExactReport(scope, e, sys.lists, sys'.lists) else ApplyError
  {
    hide Sane, CleanAll, ResolveScope, Edited, Changes, AllNormal, Rebuilds, MessageOf, ExactReport;
    var old_ := S.Lookup(sys.lists, scope);
    assert NormalList(old_) by { LookupIsNormal(sys.lists, scope); }
    CleanInputs(env, ev.request.value);
    MessageIsExact(scope, e, sys.lists, sys.lists[scope := Edited(e, old_)]);
  }

  lemma LookupIsNormal(lists: StoredLists, s: S.Scope)
    requires AllNormal(lists)
    ensures NormalList(S.Lookup(lists, s))
  {
    EmptyIsNormal();
  }

  lemma MessageIsExact(scope: S.Scope, e: Edit, before: StoredLists, now: StoredLists)
    requires NormalList(S.Lookup(before, scope)) && "" !in e.domains && "" !in e.ips
    requires S.Lookup(now, scope) == Edited(e, S.Lookup(before, scope))
    ensures MessageOf(scope, e, Changes(e, S.Lookup(before, scope))) == ExactReport(scope, e, before, now)
  {
    hide Added, Removed, AddedCount, RemovedCount, Normal;
    var old_ := S.Lookup(before, scope);
    NoOpsNeverNegative(e, old_);
    if e.Add? {
      AddCountExact(old_.domains, e.domains);
      AddCountExact(old_.ips, e.ips);
    } else {
      RemoveCountExact(old_.domains, e.domains);
      RemoveCountExact(old_.ips, e.ips);
    }
  }

  function Grown(added: bool, before: int, now: int): int {
    if added then now - before else before - now
  }

  lemma EmptyIsNormal()
    ensures NormalList(EMPTY)
  {
  }

  lemma CleanInputs(env: Env, req: Request)
    requires Sane(env.lib)
    ensures var c := DaemonChecked(env.lib, req.domains, req.ips);
            c.Good? ==> "" !in c.inputs.domains && "" !in c.inputs.ips
  {
    hide Sane;
    if ClientChecked(env.lib, req.domains, req.ips).Good? {
      AcceptedPassUnchanged(env.lib, req.domains, req.ips);
    }
  }
}
