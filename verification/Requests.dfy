/** What one request does and answers, said from the request and the lists alone. */
module Requests {
  import opened Wrappers
  import opened Sorting
  import opened Backend
  import opened Lists
  import opened Validate
  import opened Authz
  import opened Handlers
  import opened Isolation
  import R = RateLimit
  import S = Store

  // ---------- Rate limit ----------

  // What the limiter is asked about: the decoded requests.
  function Decoded(evs: seq<Event>): seq<R.Request> {
    if evs == [] then []
    else
      var ev := evs[|evs| - 1];
      Decoded(evs[..|evs| - 1]) + (if ev.request.Some? then [R.Request(ev.caller, ev.now)] else [])
  }

  // How many decoded requests of a caller, at times from a to b, were answered other than by a refusal of the limiter.
  ghost function Served(env: Env, sys: Sys, evs: seq<Event>, u: Uid, a: int, b: int): nat {
    if evs == [] then 0
    else
      var init, ev := evs[..|evs| - 1], evs[|evs| - 1];
      Served(env, sys, init, u, a, b)
      + (if ev.caller == u && ev.request.Some? && a <= ev.now <= b
        && Serve(env, After(env, sys, init), ev).1 != RateLimited
         then 1 else 0)
  }

  lemma {:induction false} AfterLast(env: Env, sys: Sys, evs: seq<Event>, ev: Event)
    ensures After(env, sys, evs + [ev]) == Serve(env, After(env, sys, evs), ev).0
    decreases |evs|
  {
    hide Serve;
    if evs == [] {
      assert evs + [ev] == [ev];
    } else {
      assert (evs + [ev])[1..] == evs[1..] + [ev];
      AfterLast(env, Serve(env, sys, evs[0]).0, evs[1..], ev);
    }
  }

  lemma LimiterAsked(env: Env, sys: Sys, ev: Event)
    ensures var (sys', r) := Serve(env, sys, ev);
            if ev.request.None? then sys' == sys && r == Malformed
            else
              && sys'.windows == R.Next(env.limits, sys.windows, R.Request(ev.caller, ev.now))
              && (r == RateLimited <==> !R.Verdict(env.limits, sys.windows, R.Request(ev.caller, ev.now)))
  {
    hide R.Next, R.Verdict, Edited, Changes, DaemonChecked, Rebuilds, ResolveScope, UserViews, MessageOf;
    forall scope, e, n ensures MessageOf(scope, e, n).Changed? {
      MessageIsChanged(scope, e, n);
    }
  }

  lemma MessageIsChanged(scope: S.Scope, e: Edit, n: (int, int))
    ensures MessageOf(scope, e, n).Changed?
  {
  }

  lemma {:induction false} ServedIsAdmitted(env: Env, lists: StoredLists, evs: seq<Event>, u: Uid, a: int, b: int)
    ensures After(env, Sys(lists, map[]), evs).windows == R.After(env.limits, Decoded(evs))
    ensures Served(env, Sys(lists, map[]), evs, u, a, b) == R.Admitted(env.limits, Decoded(evs), u, a, b)
  {
    hide Serve, R.Next, R.Verdict;
    if evs != [] {
      var init, ev := evs[..|evs| - 1], evs[|evs| - 1];
      ServedIsAdmitted(env, lists, init, u, a, b);
      assert evs == init + [ev];
      AfterLast(env, Sys(lists, map[]), init, ev);
      LimiterAsked(env, After(env, Sys(lists, map[]), init), ev);
      var rs := Decoded(evs);
      if ev.request.Some? {
        assert rs[..|rs| - 1] == Decoded(init) && rs[|rs| - 1] == R.Request(ev.caller, ev.now);
      } else {
        assert rs == Decoded(init);
      }
    }
  }

  // Whatever is asked by whom, in any interval of length l the daemon serves a caller no more requests than the bound.
  lemma ServedAtMost(env: Env, lists: StoredLists, evs: seq<Event>, u: Uid, a: int, l: nat)
    requires env.limits.window >= 0 && R.InOrder(Decoded(evs))
    ensures Served(env, Sys(lists, map[]), evs, u, a, a + l) <= R.SlidingBound(env.limits, l, env.limits.window + 1)
  {
    hide Served, Decoded, R.SlidingBound, R.InOrder, R.Admitted, R.After, After;
    ServedIsAdmitted(env, lists, evs, u, a, a + l);
    R.AdmitsAtMost(env.limits, Decoded(evs), u, a, l);
  }

  // ---------- Edits ----------

  // The request gets to a handler.
  predicate Handled(env: Env, sys: Sys, ev: Event) {
    && ev.request.Some? && R.Verdict(env.limits, sys.windows, R.Request(ev.caller, ev.now))
    && ev.request.value.version <= 1
  }

  predicate AsksEdit(ev: Event) {
    ev.request.Some? && (ev.request.value.action.AddEntries? || ev.request.value.action.RemoveEntries?)
  }

  // It asks for an edit of this list with these inputs, and nothing stands in the way of saving it.
  predicate SavesEdit(env: Env, sys: Sys, ev: Event, scope: S.Scope, inputs: Inputs) {
    && Handled(env, sys, ev) && AsksEdit(ev)
    && ResolveScope(env.lookup, ev.request.value.target, ev.caller) == Allowed(scope)
    && DaemonChecked(env.lib, ev.request.value.domains, ev.request.value.ips) == Good(inputs)
    && (inputs.domains != [] || inputs.ips != [])
    && !ev.readFails && S.Commits(ev.ending)
  }

  // Then every cleaned input is in the list, for an add, and none is, for a remove; nothing else changes anywhere; and
  // the answer names the action, unless the rebuild fails.
  lemma EditTaken(env: Env, sys: Sys, ev: Event, scope: S.Scope, inputs: Inputs)
    requires SavesEdit(env, sys, ev, scope, inputs)
    ensures var (sys', r) := Serve(env, sys, ev);
            var adds := ev.request.value.action.AddEntries?;
            && (forall f, x :: x != "" ==>
                  (x in ListIn(S.Lookup(sys'.lists, scope), f) <==>
                    if x in (if f.Domains? then inputs.domains else inputs.ips) then adds
                    else x in ListIn(S.Lookup(sys.lists, scope), f)))
            && (forall s :: s != scope ==> SameFor(sys.lists, sys'.lists, s))
            && (if Rebuilds(env, sys'.lists, ev) then r.Changed? && r.added == adds && r.scope == scope
                else r == ApplyError)
  {
    hide Edited, Changes, DaemonChecked, Rebuilds, ResolveScope, R.Next, R.Verdict;
    var e := if ev.request.value.action.AddEntries? then Add(inputs.domains, inputs.ips)
             else Remove(inputs.domains, inputs.ips);
    var old_ := S.Lookup(sys.lists, scope);
    assert Serve(env, sys, ev).0.lists == sys.lists[scope := Edited(e, old_)];
    forall f, x | x != ""
      ensures x in ListIn(Edited(e, old_), f) <==> if x in ItemsOf(e, f) then e.Add? else x in ListIn(old_, f)
    {
      EditedMeans(e, old_, f, x);
    }
  }

  // Nothing but such a request changes any list.
  lemma OnlyEditsChange(env: Env, sys: Sys, ev: Event)
    ensures Serve(env, sys, ev).0.lists != sys.lists ==> exists scope, inputs :: SavesEdit(env, sys, ev, scope, inputs)
  {
    hide Edited, Changes, DaemonChecked, Rebuilds, ResolveScope, ShowSpec, MessageOf, R.Next, R.Verdict;
    if Serve(env, sys, ev).0.lists != sys.lists {
      var req := ev.request.value;
      var scope := ResolveScope(env.lookup, req.target, ev.caller).scope;
      var inputs := DaemonChecked(env.lib, req.domains, req.ips).inputs;
      assert SavesEdit(env, sys, ev, scope, inputs);
    }
  }

  // A good edit that is not saved, and a show whose reads fail, are answered with the one error, and change nothing.
  lemma FailuresAreErrors(env: Env, sys: Sys, ev: Event)
    requires Handled(env, sys, ev)
    ensures var (sys', r) := Serve(env, sys, ev);
            && (ev.request.value.action.Show? && ev.readFails ==> r == ApplyError)
            && (AsksEdit(ev) && PlanOf(env, ev.caller, ev.request.value).Go?
                  && (ev.readFails || !S.Commits(ev.ending)) ==>
                  r == ApplyError && sys'.lists == sys.lists)
  {
    hide Edited, Changes, DaemonChecked, Rebuilds, ResolveScope, UserViews, MessageOf, R.Next, R.Verdict;
  }

  // ---------- Answers ----------

  // Which answer a request gets that is not saved: the first check it fails.
  lemma AnswerKinds(env: Env, sys: Sys, ev: Event)
    ensures var r := Serve(env, sys, ev).1;
            var handled := Handled(env, sys, ev);
            && (r == Malformed <==> ev.request.None?)
            && (r.Unsupported? <==>
                  && ev.request.Some? && R.Verdict(env.limits, sys.windows, R.Request(ev.caller, ev.now))
                  && ev.request.value.version > 1)
            && (r.UnknownAction? <==> handled && ev.request.value.action.Unknown?)
            && (r == StatusInfo(env.backend, 1) <==> handled && ev.request.value.action.Status?)
            && (r.Views? <==> handled && ev.request.value.action.Show? && !ev.readFails)
            && (r.NotAllowed? <==>
                  && handled && AsksEdit(ev)
                  && ResolveScope(env.lookup, ev.request.value.target, ev.caller).Denied?)
            && (r.NotAllowed? ==>
                  ResolveScope(env.lookup, ev.request.value.target, ev.caller) == Denied(r.why))
            && (r.Invalid? <==>
                  && handled && AsksEdit(ev)
                  && ResolveScope(env.lookup, ev.request.value.target, ev.caller).Allowed?
                  && DaemonChecked(env.lib, ev.request.value.domains, ev.request.value.ips).Refused?)
            && (r.Invalid? ==>
                  DaemonChecked(env.lib, ev.request.value.domains, ev.request.value.ips) == Refused(r.problem))
            && (r.NothingToDo? <==>
                  && handled && AsksEdit(ev)
                  && ResolveScope(env.lookup, ev.request.value.target, ev.caller).Allowed?
                  && DaemonChecked(env.lib, ev.request.value.domains, ev.request.value.ips) == Good(Inputs([], [])))
  {
    hide Edited, Changes, DaemonChecked, Rebuilds, ResolveScope, UserViews, MessageOf, R.Next, R.Verdict;
    forall scope, e, n ensures MessageOf(scope, e, n).Changed? {
      MessageIsChanged(scope, e, n);
    }
  }

  // ---------- Views ----------

  lemma {:induction false} ViewsAre(env: Env, lists: StoredLists, uids: seq<int>)
    ensures var vs := UserViews(env, lists, uids);
            && |vs| == |uids|
            && forall i :: 0 <= i < |uids| ==>
                 vs[i] == View(S.User(uids[i]), env.nameOf(uids[i]), false, S.Lookup(lists, S.User(uids[i])))
  {
    if uids != [] {
      ViewsAre(env, lists, uids[..|uids| - 1]);
    }
  }

  // Root is shown the global list and then every stored list, each once, by ascending uid, with the owner's name.
  lemma RootIsShownAll(env: Env, sys: Sys, ev: Event)
    requires Handled(env, sys, ev) && ev.request.value.action.Show? && !ev.readFails && ev.caller == 0
    ensures var r := Serve(env, sys, ev).1;
            && r.Views? && |r.views| >= 1
            && r.views[0] == View(S.Global, None, false, S.Lookup(sys.lists, S.Global))
            && (forall i :: 1 <= i < |r.views| ==>
                  var v := r.views[i];
                  && v.scope.User? && v.scope in sys.lists
                  && v.list == sys.lists[v.scope] && v.owner == env.nameOf(v.scope.uid) && !v.readOnly)
            && (forall i, j :: 1 <= i < j < |r.views| ==> r.views[i].scope.uid < r.views[j].scope.uid)
            && (forall s :: s in sys.lists && s.User? ==> exists i :: 1 <= i < |r.views| && r.views[i].scope == s)
  {
    hide DaemonChecked, Rebuilds, ResolveScope, UserViews, R.Next, R.Verdict, SortedInts;
    var uids := SortedInts(S.UidsOf(sys.lists));
    ViewsAre(env, sys.lists, uids);
    var vs := Serve(env, sys, ev).1.views;
    assert vs == [View(S.Global, None, false, S.Lookup(sys.lists, S.Global))] + UserViews(env, sys.lists, uids);
    forall i | 1 <= i < |vs|
      ensures vs[i].scope == S.User(uids[i - 1]) && vs[i].scope in sys.lists
    {
      assert uids[i - 1] in Elements(uids);
    }
    forall s | s in sys.lists && s.User? ensures exists i :: 1 <= i < |vs| && vs[i].scope == s {
      assert s.uid in S.UidsOf(sys.lists) && s.uid in Elements(uids);
      var i :| 0 <= i < |uids| && uids[i] == s.uid;
      assert vs[i + 1].scope == s;
    }
  }

  // Any other caller is shown its own list and, to read only, the global one.
  lemma UserIsShownOwn(env: Env, sys: Sys, ev: Event)
    requires Handled(env, sys, ev) && ev.request.value.action.Show? && !ev.readFails && ev.caller != 0
    ensures var r := Serve(env, sys, ev).1;
            && r.Views? && |r.views| == 2
            && r.views[0].scope == S.User(ev.caller) && !r.views[0].readOnly
            && r.views[1].scope == S.Global && r.views[1].readOnly
            && forall i :: 0 <= i < 2 ==> r.views[i].list == S.Lookup(sys.lists, r.views[i].scope)
  {
    hide DaemonChecked, Rebuilds, ResolveScope, R.Next, R.Verdict;
  }
}
