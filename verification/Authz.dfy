/** Which list a caller may change. The caller's uid comes from the kernel, never from the request. */
module Authz {
  import opened Wrappers
  import opened Decimal
  import S = Store

  // A kernel uid.
  type Uid = x: int | 0 <= x < 0x1_0000_0000

  datatype Denial = NotYours | UnknownUser | NonNumericUid

  datatype Resolution = Allowed(scope: S.Scope) | Denied(why: Denial)

  // lookup is the user database: the uid text of a name.
  function LookupUid(lookup: string -> Option<string>, target: string): Resolution {
    match Atoi(target)
    case Some(uid) => Allowed(S.User(uid))
    case None =>
      match lookup(target)
      case None => Denied(UnknownUser)
      case Some(text) =>
        match Atoi(text)
        case Some(uid) => Allowed(S.User(uid))
        case None => Denied(NonNumericUid)
  }

  function ResolveScope(lookup: string -> Option<string>, target: string, caller: Uid): Resolution {
    if caller != 0 then
      if target != "" && target != Itoa(caller) then Denied(NotYours) else Allowed(S.User(caller))
    else if target == "" || target == "global" then Allowed(S.Global)
    else LookupUid(lookup, target)
  }

  // A caller other than root reaches its own list and no other; root reaches every list the store can hold.
  lemma ScopesReached(lookup: string -> Option<string>, caller: Uid, s: S.Scope)
    ensures (exists target :: ResolveScope(lookup, target, caller) == Allowed(s)) <==>
              if caller != 0 then s == S.User(caller) else S.ValidScope(s)
  {
    hide Atoi;
    forall target | ResolveScope(lookup, target, caller).Allowed?
      ensures S.ValidScope(ResolveScope(lookup, target, caller).scope)
    {
      AllowedIsStorable(lookup, target, caller);
    }
    if caller != 0 {
      assert ResolveScope(lookup, "", caller) == Allowed(S.User(caller));
    } else if s.Global? {
      assert ResolveScope(lookup, "", caller) == Allowed(s);
    } else if InInt64(s.uid) {
      AtoiInvertsItoa(s.uid);
      WordsAreNotNumbers();
      assert ResolveScope(lookup, Itoa(s.uid), caller) == Allowed(s);
    }
  }

  lemma WordsAreNotNumbers()
    ensures Atoi("") == None && Atoi("global") == None
  {
    assert !IsDigit("global"[0]);
  }

  // Whoever asks, what is allowed names a list the store can hold.
  lemma AllowedIsStorable(lookup: string -> Option<string>, target: string, caller: Uid)
    ensures ResolveScope(lookup, target, caller).Allowed? ==> S.ValidScope(ResolveScope(lookup, target, caller).scope)
  {
  }

  // What each target means to root: nothing and "global" the global list, a number the list of that uid, and any other
  // text the list of the uid that the user database has for this name, in decimal; otherwise it is denied.
  lemma RootTargets(lookup: string -> Option<string>, target: string, uid: int)
    ensures ResolveScope(lookup, "", 0) == ResolveScope(lookup, "global", 0) == Allowed(S.Global)
    ensures InInt64(uid) ==> ResolveScope(lookup, Itoa(uid), 0) == Allowed(S.User(uid))
    ensures target != "" && target != "global" && Atoi(target).Some? ==>
              ResolveScope(lookup, target, 0) == Allowed(S.User(Atoi(target).value))
    ensures target != "" && target != "global" && Atoi(target).None? ==>
              && (ResolveScope(lookup, target, 0) == Allowed(S.User(uid)) <==>
                    lookup(target).Some? && Atoi(lookup(target).value) == Some(uid))
              && (lookup(target) == Some(Itoa(uid)) && InInt64(uid) ==>
                    ResolveScope(lookup, target, 0) == Allowed(S.User(uid)))
              && ResolveScope(lookup, target, 0) != Allowed(S.Global)
              && (ResolveScope(lookup, target, 0) == Denied(UnknownUser) <==> lookup(target).None?)
              && (ResolveScope(lookup, target, 0) == Denied(NonNumericUid) <==>
                    lookup(target).Some? && Atoi(lookup(target).value).None?)
  {
    hide Atoi;
    WordsAreNotNumbers();
    if InInt64(uid) {
      AtoiInvertsItoa(uid);
    }
  }

  // Any other caller is let in exactly when it names nobody or itself, and then to its own list.
  lemma OwnTargetsOnly(lookup: string -> Option<string>, target: string, caller: Uid)
    requires caller != 0
    ensures ResolveScope(lookup, target, caller)
         == if target == "" || (Atoi(target) == Some(caller) && target == Itoa(caller)) then Allowed(S.User(caller))
            else Denied(NotYours)
  {
    AtoiInvertsItoa(caller);
  }
}
