/** What the daemon does with one request after another: rate limit, dispatch, and the handlers over the store. */
module Handlers {
  import opened Wrappers
  import opened Sorting
  import opened Backend
  import opened Lists
  import opened Validate
  import opened Authz
  import E = Engine
  import R = RateLimit
  import S = Store

  const VERSION := 1

  datatype Action = AddEntries | RemoveEntries | Show | Status | Unknown(name: string)

  datatype Request = Request(version: int, action: Action, domains: seq<string>, ips: seq<string>, target: string)

  datatype View = View(scope: S.Scope, owner: Option<string>, readOnly: bool, list: BlockList)

  datatype Response =
    | Malformed
    | RateLimited
    | Unsupported(version: int)
    | UnknownAction(name: string)
    | NotAllowed(why: Denial)
    | Invalid(problem: Problem)
    | NothingToDo
    | ApplyError
    | Changed(added: bool, domains: int, ips: int, scope: S.Scope, noop: Option<int>)
    | Views(views: seq<View>)
    | StatusInfo(backend: Kind, version: int)

  // What does not change while the daemon runs: the library, the user database both ways, and the configuration.
  datatype Env = Env(
    lib: Lib,
    lookup: string -> Option<string>,
    nameOf: int -> Option<string>,
    limits: R.Config,
    backend: Kind)

  // One connection: who, when, what, None if it does not decode, and what the system does meanwhile: the name it
  // gives a temporary file, whether store reads fail, how saving ends, whether the rebuild meets a fault, and the cache
  // it builds from.
  datatype Event = Event(
    caller: Uid, now: int, request: Option<Request>,
    tmp: string, readFails: bool, ending: S.Ending, fault: bool, cache: E.Cache)

  // ---------- What each handler answers ----------

  type StoredLists = map<S.Scope, BlockList>

  function EditOf(action: Action, inputs: Inputs): Edit {
    if action.AddEntries? then Add(inputs.domains, inputs.ips) else Remove(inputs.domains, inputs.ips)
  }

  datatype Plan = Go(scope: S.Scope, edit: Edit) | Stop(response: Response)

  // Authorization first, then the inputs.
  function PlanOf(env: Env, caller: Uid, req: Request): Plan {
    match ResolveScope(env.lookup, req.target, caller)
    case Denied(why) => Stop(NotAllowed(why))
    case Allowed(scope) =>
      match DaemonChecked(env.lib, req.domains, req.ips)
      case Refused(p) => Stop(Invalid(p))
      case Good(inputs) =>
        if inputs.domains == [] && inputs.ips == [] then Stop(NothingToDo) else Go(scope, EditOf(req.action, inputs))
  }

  predicate Saves(ev: Event) {
    !ev.readFails && S.Commits(ev.ending)
  }

  // The backend refuses nothing of one stored list.
  predicate Fits(env: Env, lists: StoredLists, cache: E.Cache, s: S.Scope) {
    s in lists ==>
      E.ListLoads(env.backend, if s.User? then Some(s.uid) else None, lists[s], cache, env.lib.parse)
  }

  lemma FitsIff(env: Env, lists: StoredLists, cache: E.Cache, s: S.Scope)
    ensures Fits(env, lists, cache, s) <==>
              E.ListLoads(env.backend, if s.User? then Some(s.uid) else None, S.Lookup(lists, s), cache, env.lib.parse)
  {
    hide E.ListLoads;
    NothingLoads(env.backend, if s.User? then Some(s.uid) else None, cache, env.lib.parse);
  }

  lemma StoredValid(disk: S.Disk, lists: StoredLists)
    requires S.Refines(disk, lists)
    ensures forall s :: s in lists ==> S.ValidScope(s)
  {
  }

  lemma FitsAll(env: Env, lists: StoredLists, cache: E.Cache, uids: seq<int>)
    requires Elements(uids) == S.UidsOf(lists) && Fits(env, lists, cache, S.Global)
    requires forall k :: 0 <= k < |uids| ==> Fits(env, lists, cache, S.User(uids[k]))
    ensures forall s :: Fits(env, lists, cache, s)
  {
    hide E.ListLoads;
    forall s ensures Fits(env, lists, cache, s) {
      if s.User? && s in lists {
        assert s.uid in S.UidsOf(lists) && s.uid in Elements(uids);
        var k :| 0 <= k < |uids| && uids[k] == s.uid;
      }
    }
  }

  // A rebuild succeeds if it meets no fault and the backend refuses nothing of any list.
  ghost predicate Rebuilds(env: Env, lists: StoredLists, ev: Event) {
    !ev.fault && forall s :: Fits(env, lists, ev.cache, s)
  }

  ghost function StoredSnapshot(lists: StoredLists): E.Snapshot {
    E.Snapshot(S.Lookup(lists, S.Global), map uid | uid in S.UidsOf(lists) :: lists[S.User(uid)])
  }

  // That is the condition under which an Apply of what these lists stand for succeeds.
  lemma RebuildsIff(env: Env, lists: StoredLists, ev: Event)
    ensures Rebuilds(env, lists, ev) <==>
              !ev.fault && E.Loads(env.backend, StoredSnapshot(lists), ev.cache, env.lib.parse)
  {
    hide E.ListLoads;
    assert E.ListLoads(env.backend, None, EMPTY, ev.cache, env.lib.parse) by {
      NothingLoads(env.backend, None, ev.cache, env.lib.parse);
    }
    var s := StoredSnapshot(lists);
    forall uid ensures uid in s.users <==> S.User(uid) in lists {
      assert S.User(uid) in lists <==> uid in S.UidsOf(lists);
    }
    if E.Loads(env.backend, s, ev.cache, env.lib.parse) {
      forall scope ensures Fits(env, lists, ev.cache, scope) {
        assert scope.User? && scope in lists ==> scope.uid in s.users;
      }
    }
    if forall scope :: Fits(env, lists, ev.cache, scope) {
      assert Fits(env, lists, ev.cache, S.Global);
      forall uid | uid in s.users ensures E.ListLoads(env.backend, Some(uid), s.users[uid], ev.cache, env.lib.parse) {
        assert Fits(env, lists, ev.cache, S.User(uid));
      }
    }
  }

  lemma NothingLoads(kind: Kind, owner: Option<int>, cache: E.Cache, parse: string -> E.Parsed)
    ensures E.ListLoads(kind, owner, EMPTY, cache, parse)
  {
  }

  function MessageOf(scope: S.Scope, e: Edit, changes: (int, int)): Response {
    var noop := (|e.domains| - changes.0) + (|e.ips| - changes.1);
    Changed(e.Add?, changes.0, changes.1, scope, if noop > 0 then Some(noop) else None)
  }

  ghost function MutateSpec(env: Env, lists: StoredLists, ev: Event): (StoredLists, Response)
    requires ev.request.Some?
  {
    match PlanOf(env, ev.caller, ev.request.value)
    case Stop(response) => (lists, response)
    case Go(scope, e) =>
      if !Saves(ev) then (lists, ApplyError)
      else
        var old_ := S.Lookup(lists, scope);
        var lists' := lists[scope := Edited(e, old_)];
        (lists', if Rebuilds(env, lists', ev) then MessageOf(scope, e, Changes(e, old_)) else ApplyError)
  }

  function UserViews(env: Env, lists: StoredLists, uids: seq<int>): seq<View> {
    if uids == [] then []
    else
      var uid := uids[|uids| - 1];
      UserViews(env, lists, uids[..|uids| - 1])
        + [View(S.User(uid), env.nameOf(uid), false, S.Lookup(lists, S.User(uid)))]
  }

  lemma OneMoreView(env: Env, lists: StoredLists, uids: seq<int>, i: nat)
    requires i < |uids|
    ensures UserViews(env, lists, uids[..i + 1])
         == UserViews(env, lists, uids[..i])
           + [View(S.User(uids[i]), env.nameOf(uids[i]), false, S.Lookup(lists, S.User(uids[i])))]
  {
    assert uids[..i + 1][..i] == uids[..i];
  }

  lemma NoViews(env: Env, lists: StoredLists)
    ensures UserViews(env, lists, []) == []
  {
  }

  lemma AscendingInts(uids: seq<int>)
    requires Ascending(IntLess, uids)
    ensures uids == SortedInts(Elements(uids))
  {
    IntLessStrict();
    AscendingUnique(IntLess, uids, SortedInts(Elements(uids)));
  }

  ghost function ShowSpec(env: Env, lists: StoredLists, ev: Event): Response {
    if ev.readFails then ApplyError
    else if ev.caller == 0 then
      Views([View(S.Global, None, false, S.Lookup(lists, S.Global))]
        + UserViews(env, lists, SortedInts(S.UidsOf(lists))))
    else
      Views([View(S.User(ev.caller), None, false, S.Lookup(lists, S.User(ev.caller))),
             View(S.Global, None, true, S.Lookup(lists, S.Global))])
  }

  ghost function DispatchSpec(env: Env, lists: StoredLists, ev: Event): (StoredLists, Response)
    requires ev.request.Some?
  {
    var req := ev.request.value;
    if req.version > VERSION then (lists, Unsupported(req.version))
    else
      match req.action
      case Unknown(name) => (lists, UnknownAction(name))
      case Status => (lists, StatusInfo(env.backend, VERSION))
      case Show => (lists, ShowSpec(env, lists, ev))
      case _ => MutateSpec(env, lists, ev)
  }

  datatype Sys = Sys(lists: StoredLists, windows: R.Windows)

  ghost function Serve(env: Env, sys: Sys, ev: Event): (Sys, Response) {
    var r := R.Request(ev.caller, ev.now);
    if ev.request.None? then (sys, Malformed)
    else
      var windows := R.Next(env.limits, sys.windows, r);
      if !R.Verdict(env.limits, sys.windows, r) then (Sys(sys.lists, windows), RateLimited)
      else
        var (lists, response) := DispatchSpec(env, sys.lists, ev);
        (Sys(lists, windows), response)
  }

  // ---------- The daemon ----------

  predicate FreshName(disk: S.Disk, tmp: string) {
    S.IsTempName(tmp) && S.Path(S.Root, tmp) !in disk && S.Path(S.Users, tmp) !in disk
  }

  class Daemon {
    const env: Env
    const store: S.Store
    const limiter: R.RateLimiter

    ghost predicate Valid()
      reads this, store, limiter, limiter.Owned()
    {
      && store.Valid() && limiter.Valid() && limiter.config == env.limits
      && store !in limiter.Owned() && this !in limiter.Owned()
    }

    ghost function Value(): Sys
      reads this, store, limiter, limiter.Owned()
    {
      Sys(store.lists, limiter.Value())
    }

    constructor (env: Env, store: S.Store)
      requires store.Valid()
      ensures Valid() && Value() == Sys(store.lists, map[]) && this.env == env && this.store == store
      ensures fresh(limiter) && limiter.Owned() == {}
    {
      this.env, this.store := env, store;
      limiter := new R.RateLimiter(env.limits.limit, env.limits.window);
    }

    method Mutate(ev: Event) returns (response: Response)
      requires store.Valid() && ev.request.Some? && FreshName(store.disk, ev.tmp)
      modifies store
      ensures store.Valid() && (store.lists, response) == MutateSpec(env, old(store.lists), ev)
    {
      var req := ev.request.value;
      AllowedIsStorable(env.lookup, req.target, ev.caller);
      var scope := ResolveScope(env.lookup, req.target, ev.caller);
      if scope.Denied? {
        return NotAllowed(scope.why);
      }
      var checked := NormalizeAndValidate(env.lib, req.domains, req.ips);
      if checked.Refused? {
        return Invalid(checked.problem);
      }
      var inputs := checked.inputs;
      if inputs.domains == [] && inputs.ips == [] {
        return NothingToDo;
      }
      var e := EditOf(req.action, inputs);
      var n := store.Mutate(scope.scope, e, S.Path(S.PathOf(scope.scope).dir, ev.tmp), ev.readFails, ev.ending);
      if n.Err? {
        return ApplyError;
      }
      var ok := Rebuild(ev);
      if !ok {
        return ApplyError;
      }
      return MessageOf(scope.scope, e, n.value);
    }

    // Load every list and apply what they stand for, unless the backend refuses something of one.
    method Rebuild(ev: Event) returns (ok: bool)
      requires store.Valid()
      ensures ok == Rebuilds(env, store.lists, ev)
    {
      hide Fits, S.Refines;
      if ev.fault {
        return false;
      }
      var global := store.Load(S.Global, false);
      FitsIff(env, store.lists, ev.cache, S.Global);
      if !E.ListLoads(env.backend, None, global.value, ev.cache, env.lib.parse) {
        return false;
      }
      var uids := store.ListUserUIDs(false);
      StoredValid(store.disk, store.lists);
      for i := 0 to |uids.value|
        invariant forall k :: 0 <= k < i ==> Fits(env, store.lists, ev.cache, S.User(uids.value[k]))
      {
        var uid := uids.value[i];
        assert uid in Elements(uids.value) && S.User(uid) in store.lists;
        var list := store.Load(S.User(uid), false);
        FitsIff(env, store.lists, ev.cache, S.User(uid));
        if !E.ListLoads(env.backend, Some(uid), list.value, ev.cache, env.lib.parse) {
          return false;
        }
      }
      FitsAll(env, store.lists, ev.cache, uids.value);
      return true;
    }

    method ShowAsRoot(readFails: bool) returns (response: Response)
      requires store.Valid()
      ensures response ==
                if readFails then ApplyError
                else Views([View(S.Global, None, false, S.Lookup(store.lists, S.Global))]
                           + UserViews(env, store.lists, SortedInts(S.UidsOf(store.lists))))
    {
      hide UserViews;
      var global := store.Load(S.Global, readFails);
      if global.Err? {
        return ApplyError;
      }
      NoViews(env, store.lists);
      var views := [View(S.Global, None, false, global.value)];
      var uids := store.ListUserUIDs(readFails);
      if uids.Err? {
        return ApplyError;
      }
      ghost var first := views;
      for i := 0 to |uids.value|
        invariant views == first + UserViews(env, store.lists, uids.value[..i])
      {
        var uid := uids.value[i];
        assert uid in Elements(uids.value) && S.User(uid) in store.lists;
        OneMoreView(env, store.lists, uids.value, i);
        var list := store.Load(S.User(uid), readFails);
        if list.Err? {
          return ApplyError;
        }
        views := views + [View(S.User(uid), env.nameOf(uid), false, list.value)];
      }
      assert uids.value[..|uids.value|] == uids.value;
      AscendingInts(uids.value);
      return Views(views);
    }

    method ShowAsUser(uid: Uid, readFails: bool) returns (response: Response)
      requires store.Valid()
      ensures response ==
                if readFails then ApplyError
                else Views([View(S.User(uid), None, false, S.Lookup(store.lists, S.User(uid))),
                            View(S.Global, None, true, S.Lookup(store.lists, S.Global))])
    {
      var own := store.Load(S.User(uid), readFails);
      if own.Err? {
        return ApplyError;
      }
      var global := store.Load(S.Global, readFails);
      if global.Err? {
        return ApplyError;
      }
      return Views([View(S.User(uid), None, false, own.value), View(S.Global, None, true, global.value)]);
    }

    method Dispatch(ev: Event) returns (response: Response)
      requires store.Valid() && ev.request.Some? && FreshName(store.disk, ev.tmp)
      modifies store
      ensures store.Valid() && (store.lists, response) == DispatchSpec(env, old(store.lists), ev)
    {
      var req := ev.request.value;
      if req.version > VERSION {
        return Unsupported(req.version);
      }
      match req.action
      case Unknown(name) => return UnknownAction(name);
      case Status => return StatusInfo(env.backend, VERSION);
      case Show =>
        if ev.caller == 0 {
          response := ShowAsRoot(ev.readFails);
        } else {
          response := ShowAsUser(ev.caller, ev.readFails);
        }
      case _ => response := Mutate(ev);
    }

    method Handle(ev: Event) returns (response: Response)
      requires Valid() && FreshName(store.disk, ev.tmp)
      modifies store, limiter, limiter.Owned()
      ensures Valid() && fresh(limiter.Owned() - old(limiter.Owned()))
      ensures (Value(), response) == Serve(env, old(Value()), ev)
    {
      if ev.request.None? {
        return Malformed;
      }
      var ok := limiter.Allow(ev.caller, ev.now);
      if !ok {
        return RateLimited;
      }
      response := Dispatch(ev);
    }
  }
}
