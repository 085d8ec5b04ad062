/** What NormalizeDomain makes of pasted URLs: when it finds the host, and what it takes for the host otherwise. */
module Urls {
  import opened Wrappers
  import opened Engine
  import opened Validate

  datatype Url = Url(
    scheme: Option<string>, user: Option<string>, host: string, dot: bool, port: Option<string>, tail: string)

  function Host(u: Url): string {
    u.host + (if u.dot then "." else "")
  }

  function PortPart(u: Url): string {
    if u.port.Some? then ":" + u.port.value else ""
  }

  function UserPart(u: Url): string {
    if u.user.Some? then u.user.value + "@" else ""
  }

  // What follows the user information, and what follows the scheme.
  function HostPort(u: Url): string {
    Host(u) + PortPart(u)
  }

  function Authority(u: Url): string {
    UserPart(u) + (HostPort(u) + u.tail)
  }

  function UrlText(u: Url): string {
    (if u.scheme.Some? then u.scheme.value + SCHEME_END else "") + Authority(u)
  }

  predicate IsSeparator(c: char) {
    c == '/' || c == '?' || c == '#'
  }

  predicate PlainChar(c: char) {
    c != ':' && c != '@' && !IsSeparator(c)
  }

  predicate Plain(s: string) {
    forall i :: 0 <= i < |s| ==> PlainChar(s[i])
  }

  // A host, or a host alone, with anything around it: the user may hold any text, and so may the tail.
  predicate IsUrl(u: Url) {
    && (u.scheme.Some? ==> ':' !in u.scheme.value)
    && Plain(u.host) && u.host != "" && u.host[|u.host| - 1] != '.'
    && (u.port.Some? ==> Plain(u.port.value))
    && (u.tail != "" ==> IsSeparator(u.tail[0]))
  }

  // ---------- The condition ----------

  // Without a scheme, the first "://" after the host is taken for the end of one: what follows it.
  function InnerScheme(u: Url): Option<string> {
    if u.scheme.Some? || (u.user.Some? && SchemeIndex(u.user.value) >= 0) then None
    else if u.port == Some("") && "//" <= u.tail then Some(u.tail[2..])
    else if SchemeIndex(u.tail) >= 0 then Some(u.tail[SchemeIndex(u.tail) + 3..])
    else None
  }

  // The text of the tail that is taken for the host: what follows such a "://" and the last '@' behind it.
  function Mistaken(u: Url): Option<string> {
    match InnerScheme(u)
    case Some(rest) => Some(WithoutUser(rest))
    case None => if '@' in u.tail then Some(WithoutUser(u.tail)) else None
  }

  // The host is followed by a dot or not, a port or not, and then nothing or a separator.
  predicate NamesHost(s: string, h: string) {
    h <= s && EndsHost(CutAtAll(s[|h|..], SEPARATORS))
  }

  predicate EndsHost(c: string) {
    var p := WithoutFirstDot(c);
    p == "" || (p[0] == ':' && ':' !in p[1..])
  }

  function WithoutFirstDot(c: string): string {
    if c != "" && c[0] == '.' then c[1..] else c
  }

  // A pasted URL is treated as its host exactly when nothing in its tail is taken for the host instead, or what is
  // taken happens to name the same host. Either way this says what comes out.
  lemma UrlIsItsHost(t: Lib, x: string, u: Url)
    requires IsUrl(u) && Lower(t, Trim(t, x)) == UrlText(u)
    ensures Normalized(t, x) == if Mistaken(u).Some? then HostOf(Mistaken(u).value) else u.host
    ensures Normalized(t, x) == u.host <==> Mistaken(u).None? || NamesHost(Mistaken(u).value, u.host)
  {
    hide HostOf, WithoutUser, WithoutScheme, Authority, HostPort, Trim, Lower, InnerScheme, NamesHost;
    assert Trim(t, x) != "" by { NotEmpty(t, x, u); }
    SchemeGoes(u);
    if InnerScheme(u).None? {
      UserGoes(u.(user := UserLeft(u)));
      HostIsFound(u);
      SameHostPort(u, UserLeft(u));
    }
    if Mistaken(u).Some? {
      NamesHostIff(Mistaken(u).value, u.host);
    }
  }

  lemma NotEmpty(t: Lib, x: string, u: Url)
    requires IsUrl(u) && Lower(t, Trim(t, x)) == UrlText(u)
    ensures Trim(t, x) != ""
  {
    hide Trim;
    assert |UrlText(u)| >= |u.host|;
  }

  // ---------- Searching ----------

  lemma LastIndexIs(a: string, c: char, b: string)
    requires c !in b
    ensures LastIndex(a + [c] + b, c) == |a|
  {
    var s := a + [c] + b;
    var i := LastIndex(s, c);
    assert s[|a|] == c;
  }

  lemma {:induction false} LastIndexAfter(before: string, rest: string, c: char)
    requires c in rest
    ensures LastIndex(before + rest, c) == |before| + LastIndex(rest, c)
    decreases |rest|
  {
    var s := before + rest;
    if rest[|rest| - 1] != c {
      var init := rest[..|rest| - 1];
      assert rest == init + [rest[|rest| - 1]];
      assert s[..|s| - 1] == before + init;
      LastIndexAfter(before, init, c);
    }
  }

  // Cutting looks only at what follows a part without the separator.
  lemma CutAfter(a: string, b: string, c: char)
    requires c !in a
    ensures CutAt(a + b, c) == a + CutAt(b, c)
  {
    if c in b {
      var i := Index(b, c);
      IndexIs(a + b[..i], c, b[i + 1..]);
      assert a + b == (a + b[..i]) + [c] + b[i + 1..];
    } else {
      assert c !in a + b;
    }
  }

  lemma {:induction false} CountNone(s: string, c: char)
    requires c !in s
    ensures Count(s, c) == 0
  {
    if s != "" {
      CountNone(s[1..], c);
    }
  }

  lemma {:induction false} CountOne(a: string, c: char, b: string)
    requires c !in a && c !in b
    ensures Count(a + [c] + b, c) == 1
  {
    var s := a + [c] + b;
    if a == "" {
      CountNone(b, c);
      assert s[1..] == b;
    } else {
      CountOne(a[1..], c, b);
      assert s[1..] == a[1..] + [c] + b;
    }
  }

  // ---------- The scheme ----------

  predicate AtScheme(s: string, i: nat) {
    i + 2 < |s| && s[i] == ':' && s[i + 1] == '/' && s[i + 2] == '/'
  }

  // If none begins in a, the first "://" is that of b.
  lemma {:induction false} SchemeAfter(a: string, b: string)
    requires forall i :: 0 <= i < |a| ==> !AtScheme(a + b, i)
    ensures SchemeIndex(a + b) == if SchemeIndex(b) >= 0 then |a| + SchemeIndex(b) else -1
  {
    var s := a + b;
    if a == "" {
      assert s == b;
    } else {
      assert s[1..] == a[1..] + b;
      forall i | 0 <= i < |a| - 1 ensures !AtScheme(a[1..] + b, i) {
        assert !AtScheme(s, i + 1);
      }
      SchemeAfter(a[1..], b);
      if |s| >= 3 {
        assert !AtScheme(s, 0);
        assert s[..3] == [s[0], s[1], s[2]];
      }
    }
  }

  lemma SchemeIs(a: string, b: string)
    requires ':' !in a
    ensures SchemeIndex(a + SCHEME_END + b) == |a|
  {
    var rest := SCHEME_END + b;
    assert a + SCHEME_END + b == a + rest;
    assert rest[..3] == SCHEME_END;
    SchemeAfter(a, rest);
  }

  lemma {:induction false} SchemeWithin(a: string, b: string)
    requires SchemeIndex(a) >= 0
    ensures SchemeIndex(a + b) == SchemeIndex(a)
  {
    var s := a + b;
    assert s[..3] == a[..3];
    if a[..3] != SCHEME_END {
      assert s[1..] == a[1..] + b;
      SchemeWithin(a[1..], b);
    }
  }

  lemma {:induction false} NoSchemeAt(s: string, i: nat)
    requires SchemeIndex(s) < 0
    ensures !AtScheme(s, i)
  {
    if i + 2 < |s| {
      if i == 0 {
        assert s[..3] == [s[0], s[1], s[2]];
      } else {
        NoSchemeAt(s[1..], i - 1);
      }
    }
  }

  // The user information that the scheme stage leaves.
  function UserLeft(u: Url): Option<string> {
    if u.scheme.None? && u.user.Some? && SchemeIndex(u.user.value) >= 0 then
      Some(u.user.value[SchemeIndex(u.user.value) + 3..])
    else u.user
  }

  lemma SchemeGoes(u: Url)
    requires IsUrl(u)
    ensures WithoutScheme(UrlText(u)) ==
              if InnerScheme(u).Some? then InnerScheme(u).value else Authority(u.(user := UserLeft(u)))
  {
    hide Authority, HostPort, SchemeIndex, IsUrl;
    if u.scheme.Some? {
      OwnSchemeGoes(u);
    } else {
      assert UrlText(u) == Authority(u);
      if u.user.Some? && SchemeIndex(u.user.value) >= 0 {
        SchemeInUser(u);
      } else {
        SchemeBehindHost(u);
      }
    }
  }

  lemma OwnSchemeGoes(u: Url)
    requires IsUrl(u) && u.scheme.Some?
    ensures WithoutScheme(UrlText(u)) == Authority(u)
  {
    hide Authority, SchemeIndex;
    SchemeIs(u.scheme.value, Authority(u));
    assert UrlText(u) == (u.scheme.value + SCHEME_END) + Authority(u);
  }

  lemma SchemeInUser(u: Url)
    requires u.user.Some? && SchemeIndex(u.user.value) >= 0
    ensures WithoutScheme(Authority(u)) ==
              Authority(u.(user := Some(u.user.value[SchemeIndex(u.user.value) + 3..])))
  {
    hide HostPort, SchemeIndex;
    var rest := "@" + (HostPort(u) + u.tail);
    SchemeWithin(u.user.value, rest);
    assert Authority(u) == u.user.value + rest;
    var left := u.user.value[SchemeIndex(u.user.value) + 3..];
    assert HostPort(u.(user := Some(left))) == HostPort(u) by { SameHostPort(u, Some(left)); }
    assert Authority(u.(user := Some(left))) == left + rest;
  }

  lemma SchemeBehindHost(u: Url)
    requires IsUrl(u) && (u.user.Some? ==> SchemeIndex(u.user.value) < 0)
    ensures WithoutScheme(Authority(u)) ==
              if u.port == Some("") && "//" <= u.tail then u.tail[2..]
              else if SchemeIndex(u.tail) >= 0 then u.tail[SchemeIndex(u.tail) + 3..]
              else Authority(u)
  {
    hide HostPort, UserPart, SchemeIndex, IsUrl;
    var before := UserPart(u) + HostPort(u);
    SchemeIndexBehindHost(u);
    assert Authority(u) == before + u.tail;
    if u.port == Some("") && "//" <= u.tail {
      TailFrom(before, u.tail, 2);
    } else if SchemeIndex(u.tail) >= 0 {
      TailFrom(before, u.tail, SchemeIndex(u.tail) + 3);
    }
  }

  lemma SchemeIndexBehindHost(u: Url)
    requires IsUrl(u) && (u.user.Some? ==> SchemeIndex(u.user.value) < 0)
    ensures var before := UserPart(u) + HostPort(u);
            SchemeIndex(Authority(u)) ==
              if u.port == Some("") && "//" <= u.tail then |before| - 1
              else if SchemeIndex(u.tail) >= 0 then |before| + SchemeIndex(u.tail) else -1
    ensures u.port == Some("") ==> |HostPort(u)| >= 1
  {
    hide HostPort, UserPart, SchemeIndex, IsUrl;
    UserHasNone(u);
    HostHasNone(u);
    EmptyPortShows(u);
  }

  lemma TailFrom(before: string, tail: string, k: nat)
    requires k <= |tail|
    ensures (before + tail)[|before| + k..] == tail[k..]
  {
  }

  lemma EmptyPortShows(u: Url)
    ensures u.port == Some("") ==> |HostPort(u)| >= 1
  {
  }

  lemma UserHasNone(u: Url)
    requires u.user.Some? ==> SchemeIndex(u.user.value) < 0
    ensures var rest := HostPort(u) + u.tail;
            SchemeIndex(Authority(u)) == if SchemeIndex(rest) >= 0 then |UserPart(u)| + SchemeIndex(rest) else -1
  {
    hide HostPort, SchemeIndex;
    var rest := HostPort(u) + u.tail;
    forall i | 0 <= i < |UserPart(u)| ensures !AtScheme(UserPart(u) + rest, i) {
      NoSchemeAt(u.user.value, i);
    }
    SchemeAfter(UserPart(u), rest);
  }

  lemma HostHasNone(u: Url)
    requires IsUrl(u)
    ensures SchemeIndex(HostPort(u) + u.tail) ==
              if u.port == Some("") && "//" <= u.tail then |HostPort(u)| - 1
              else if SchemeIndex(u.tail) >= 0 then |HostPort(u)| + SchemeIndex(u.tail) else -1
  {
    hide SchemeIndex;
    var rest := PortPart(u) + u.tail;
    assert HostPort(u) + u.tail == Host(u) + rest;
    forall i | 0 <= i < |Host(u)| ensures !AtScheme(Host(u) + rest, i) {
      assert i < |u.host| ==> PlainChar(u.host[i]);
    }
    SchemeAfter(Host(u), rest);
    PortHasNone(u);
  }

  lemma PortHasNone(u: Url)
    requires IsUrl(u)
    ensures SchemeIndex(PortPart(u) + u.tail) ==
              if u.port == Some("") && "//" <= u.tail then 0
              else if SchemeIndex(u.tail) >= 0 then |PortPart(u)| + SchemeIndex(u.tail) else -1
  {
    var s := PortPart(u) + u.tail;
    if u.port == Some("") && "//" <= u.tail {
      assert s[..3] == SCHEME_END;
    } else {
      forall i | 0 <= i < |PortPart(u)| ensures !AtScheme(s, i) {
        assert 0 < i ==> PlainChar(u.port.value[i - 1]);
        assert i + 1 < |PortPart(u)| ==> PlainChar(u.port.value[i]);
      }
      SchemeAfter(PortPart(u), u.tail);
    }
  }

  // ---------- The user information ----------

  lemma PlainLacks(s: string, c: char)
    requires Plain(s) && !PlainChar(c)
    ensures c !in s
  {
  }

  lemma HostPortLacks(u: Url, c: char)
    requires IsUrl(u) && !PlainChar(c) && c != ':'
    ensures c !in HostPort(u)
  {
    PlainLacks(u.host, c);
    if u.port.Some? {
      PlainLacks(u.port.value, c);
    }
  }

  lemma UserGoes(u: Url)
    requires IsUrl(u)
    ensures WithoutUser(Authority(u)) == if '@' in u.tail then WithoutUser(u.tail) else HostPort(u) + u.tail
  {
    hide HostPort, IsUrl, WithoutUser;
    var rest := HostPort(u) + u.tail;
    HostPortLacks(u, '@');
    if '@' in u.tail {
      LastUserGoes(UserPart(u) + HostPort(u), u.tail);
      assert Authority(u) == (UserPart(u) + HostPort(u)) + u.tail;
    } else {
      assert '@' !in rest;
      if u.user.Some? {
        OneUserGoes(u.user.value, rest);
        assert UserPart(u) == u.user.value + ['@'];
      } else {
        assert Authority(u) == rest;
        NoUser(rest);
      }
    }
  }

  lemma NoUser(s: string)
    requires '@' !in s
    ensures WithoutUser(s) == s
  {
  }

  lemma OneUserGoes(user: string, rest: string)
    requires '@' !in rest
    ensures WithoutUser(user + ['@'] + rest) == rest
  {
    LastIndexIs(user, '@', rest);
  }

  lemma LastUserGoes(before: string, rest: string)
    requires '@' in rest
    ensures WithoutUser(before + rest) == WithoutUser(rest)
  {
    LastIndexAfter(before, rest, '@');
  }

  // ---------- The host ----------

  lemma SameHostPort(u: Url, user: Option<string>)
    ensures HostPort(u.(user := user)) == HostPort(u)
  {
  }

  lemma HostIsFound(u: Url)
    requires IsUrl(u)
    ensures HostOf(HostPort(u) + u.tail) == u.host
  {
    hide HostOf, CutAtAll;
    var s := HostPort(u) + u.tail;
    assert s[..|u.host|] == u.host && s[|u.host|..] == (if u.dot then "." else "") + PortPart(u) + u.tail;
    var c := (if u.dot then "." else "") + PortPart(u);
    if u.port.Some? {
      PlainLacks(u.port.value, '/');
      PlainLacks(u.port.value, '?');
      PlainLacks(u.port.value, '#');
      PlainLacks(u.port.value, ':');
    }
    CutsTail(c, u.tail);
    assert WithoutFirstDot(c) == PortPart(u);
    NamesHostIff(s, u.host);
  }

  // Cutting looks only at what follows a part without separators.
  lemma CutsAfter(a: string, b: string)
    requires '/' !in a && '?' !in a && '#' !in a
    ensures CutAtAll(a + b, SEPARATORS) == a + CutAtAll(b, SEPARATORS)
  {
    CutsAre(a + b);
    CutsAre(b);
    CutAfter(a, b, '/');
    CutAfter(a, CutAt(b, '/'), '?');
    CutAfter(a, CutAt(CutAt(b, '/'), '?'), '#');
  }

  lemma CutsTail(a: string, tail: string)
    requires '/' !in a && '?' !in a && '#' !in a && (tail != "" ==> IsSeparator(tail[0]))
    ensures CutAtAll(a + tail, SEPARATORS) == a
  {
    CutsAfter(a, tail);
    CutsAre(tail);
  }

  // What HostOf finds is the host s begins with, if what follows ends a host.
  lemma NamesHostIff(s: string, h: string)
    requires Plain(h) && h != "" && h[|h| - 1] != '.'
    ensures HostOf(s) == h <==> NamesHost(s, h)
  {
    hide CutAtAll, WithoutPort, WithoutDot, EndsHost;
    HostOfIsPrefix(s);
    if h <= s {
      PlainLacks(h, '/');
      PlainLacks(h, '?');
      PlainLacks(h, '#');
      assert s == h + s[|h|..];
      CutsAfter(h, s[|h|..]);
      EndsHostIff(h, CutAtAll(s[|h|..], SEPARATORS));
    }
  }

  lemma HostOfIsPrefix(s: string)
    ensures HostOf(s) <= s
  {
    CutsAre(s);
  }

  lemma EndsHostIff(h: string, c: string)
    requires Plain(h) && h != "" && h[|h| - 1] != '.'
    ensures WithoutDot(WithoutPort(h + c)) == h <==> EndsHost(c)
  {
    PlainLacks(h, ':');
    if EndsHost(c) {
      EndedHost(h, c);
    } else {
      NotEndedHost(h, c);
    }
  }

  lemma EndedHost(h: string, c: string)
    requires ':' !in h && h != "" && h[|h| - 1] != '.' && EndsHost(c)
    ensures WithoutDot(WithoutPort(h + c)) == h
  {
    var p := WithoutFirstDot(c);
    var pre := c[..|c| - |p|];
    assert c == pre + p && (pre == "" || pre == ".");
    assert h + c == (h + pre) + p;
    PortCut(h + pre, p);
    DotCut(h, pre);
  }

  lemma PortCut(a: string, p: string)
    requires ':' !in a && (p == "" || (p[0] == ':' && ':' !in p[1..]))
    ensures WithoutPort(a + p) == a
  {
    if p == "" {
      assert a + p == a;
    } else {
      assert a + p == a + [':'] + p[1..];
      CountOne(a, ':', p[1..]);
      LastIndexIs(a, ':', p[1..]);
      assert (a + p)[..|a|] == a;
    }
  }

  lemma DotCut(h: string, pre: string)
    requires h != "" && h[|h| - 1] != '.' && (pre == "" || pre == ".")
    ensures WithoutDot(h + pre) == h
  {
    assert h + "" == h;
  }

  lemma NotEndedHost(h: string, c: string)
    requires ':' !in h && !EndsHost(c)
    ensures WithoutDot(WithoutPort(h + c)) != h
  {
    hide Count;
    var s := h + c;
    var i := LastIndex(s, ':');
    if i >= 0 && WithoutPort(s) == s[..i] {
      assert i >= |h|;
      var k := i - |h|;
      assert c[k] == ':' && ':' !in c[k + 1..] by { assert c[k + 1..] == s[i + 1..]; }
      assert c == c[..k] + [':'] + c[k + 1..];
      assert s[..i] == h + c[..k];
    }
  }

  // ---------- Inputs on which the host is missed ----------

  // A library under which lower-case ASCII text without spaces is left alone.
  const ASCII := Lib(c => c == ' ', c => c, _ => NotAnIP)

  lemma HiddenByScheme(u: Url, a: string, b: string)
    requires u.scheme.None? && u.user.None? && u.port.None? && u.tail == a + SCHEME_END + b && ':' !in a && '@' !in b
    ensures Mistaken(u) == Some(b)
  {
    SchemeIs(a, b);
    NoUser(b);
    assert u.tail[|a| + 3..] == b;
  }

  lemma HiddenByEmptyPort(u: Url, b: string)
    requires u.scheme.None? && u.user.None? && u.port == Some("") && u.tail == "//" + b && '@' !in b
    ensures Mistaken(u) == Some(b)
  {
    NoUser(b);
    assert u.tail[2..] == b;
  }

  lemma HiddenByAt(u: Url, a: string, b: string)
    requires u.scheme.Some? && u.tail == a + ['@'] + b && '@' !in b
    ensures Mistaken(u) == Some(b)
  {
    OneUserGoes(a, b);
  }

  lemma Pasted(x: string, u: Url, h: string)
    requires IsUrl(u) && UrlText(u) == x && Mistaken(u) == Some(h)
    requires x != "" && x[0] != ' ' && x[|x| - 1] != ' ' && Plain(h) && h != "" && h[|h| - 1] != '.'
    ensures Normalized(ASCII, x) == h
  {
    hide HostOf, CutAtAll, Mistaken, UrlText, IsUrl, Trim;
    TrimsNothing(ASCII, x);
    assert Lower(ASCII, x) == x;
    UrlIsItsHost(ASCII, x, u);
    assert h[|h|..] == "";
    CutsNothing("");
    NamesHostIff(h, h);
  }

  // Without a scheme, a later "://" hides the host.
  lemma LaterScheme()
    ensures Normalized(ASCII, "a.com/?" + "http" + "://" + "b.com") == "b.com"
  {
    hide Mistaken, Normalized, SchemeIndex, UrlText;
    var a, b := "/?" + "http", "b.com";
    var u := Url(None, None, "a.com", false, None, a + SCHEME_END + b);
    HiddenByScheme(u, a, b);
    var x := "a.com/?" + "http" + "://" + b;
    assert UrlText(u) == "a.com" + (a + SCHEME_END + b) by { HostAlone(u); }
    assert x == "a.com" + (a + SCHEME_END + b);
    Pasted(x, u, b);
  }

  lemma HostAlone(u: Url)
    requires u.scheme.None? && u.user.None? && u.port.None? && !u.dot
    ensures UrlText(u) == u.host + u.tail
  {
  }

  // So does a path of two slashes after an empty port.
  lemma EmptyPort()
    ensures Normalized(ASCII, "a.com://b.com") == "b.com"
  {
    hide Mistaken, Normalized;
    var u := Url(None, None, "a.com", false, Some(""), "//" + "b.com");
    HiddenByEmptyPort(u, "b.com");
    Pasted("a.com://b.com", u, "b.com");
  }

  // An '@' in the tail hides the host, with a scheme and without.
  lemma LaterAt()
    ensures Normalized(ASCII, "http://a.com/@b.com") == "b.com"
  {
    hide Mistaken, Normalized;
    var u := Url(Some("http"), None, "a.com", false, None, "/" + ['@'] + "b.com");
    HiddenByAt(u, "/", "b.com");
    Pasted("http://a.com/@b.com", u, "b.com");
  }

  // A host that is hidden by its own name comes out all the same.
  lemma SameHostAgain()
    ensures Normalized(ASCII, "http://a.com/@a.com") == "a.com"
  {
    hide Mistaken, Normalized;
    var u := Url(Some("http"), None, "a.com", false, None, "/" + ['@'] + "a.com");
    HiddenByAt(u, "/", "a.com");
    Pasted("http://a.com/@a.com", u, "a.com");
  }
}
