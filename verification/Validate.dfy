/** The normaliser of domain names, the recogniser of valid ones, and what they promise each other. */
module Validate {
  import opened Wrappers
  import opened Backend
  import opened Engine

  const MAX_ITEMS := 256
  const MAX_DOMAIN := 253
  const MAX_LABEL := 63

  // The library functions the validator relies on: unicode.IsSpace, unicode.ToLower, and net.ParseIP with IP.String.
  datatype Lib = Lib(isSpace: char -> bool, lower: char -> char, parse: string -> Parsed)

  predicate LabelChar(c: char) {
    'a' <= c <= 'z' || '0' <= c <= '9' || c == '-'
  }

  predicate HostChar(c: char) {
    LabelChar(c) || c == '.'
  }

  predicate HostText(s: string) {
    forall i :: 0 <= i < |s| ==> HostChar(s[i])
  }

  // What is needed of them: the characters of host names are no space and their own lower case, and the canonical text
  // of an address is not empty, has no space around it and parses to itself.
  ghost predicate Sane(t: Lib) {
    && (forall c :: HostChar(c) ==> !t.isSpace(c) && t.lower(c) == c)
    && (forall s :: t.parse(s).Canonical? ==>
          var text := t.parse(s).text; text != "" && Trim(t, text) == text && t.parse(text) == t.parse(s))
  }

  // ---------- Searching ----------

  function Index(s: string, c: char): (i: int)
    ensures -1 <= i < |s|
    ensures if i < 0 then c !in s else s[i] == c && c !in s[..i]
  {
    if s == "" then -1
    else if s[0] == c then 0
    else
      var i := Index(s[1..], c);
      assert i >= 0 ==> s[..i + 1] == [s[0]] + s[1..][..i];
      if i < 0 then -1 else i + 1
  }

  function LastIndex(s: string, c: char): (i: int)
    ensures -1 <= i < |s|
    ensures if i < 0 then c !in s else s[i] == c && c !in s[i + 1..]
  {
    if s == "" then -1
    else if s[|s| - 1] == c then |s| - 1
    else
      var init := s[..|s| - 1];
      var i := LastIndex(init, c);
      assert s == init + [s[|s| - 1]];
      assert i >= 0 ==> s[i + 1..] == init[i + 1..] + [s[|s| - 1]];
      i
  }

  function Count(s: string, c: char): nat {
    if s == "" then 0 else (if s[0] == c then 1 else 0) + Count(s[1..], c)
  }

  const SCHEME_END := "://"

  // The position of the first "://".
  function SchemeIndex(s: string): (i: int)
    ensures -1 <= i <= |s| - 3 || i == -1
    ensures i >= 0 ==> s[i..i + 3] == SCHEME_END
  {
    if |s| < 3 then -1
    else if s[..3] == SCHEME_END then 0
    else
      var i := SchemeIndex(s[1..]);
      assert i >= 0 ==> s[1..][i..i + 3] == s[i + 1..i + 4];
      if i < 0 then -1 else i + 1
  }

  // ---------- NormalizeDomain ----------

  function TrimLeft(t: Lib, s: string): string {
    if s != "" && t.isSpace(s[0]) then TrimLeft(t, s[1..]) else s
  }

  function TrimRight(t: Lib, s: string): string {
    if s != "" && t.isSpace(s[|s| - 1]) then TrimRight(t, s[..|s| - 1]) else s
  }

  function Trim(t: Lib, s: string): string {
    TrimRight(t, TrimLeft(t, s))
  }

  function Lower(t: Lib, s: string): string {
    seq(|s|, i requires 0 <= i < |s| => t.lower(s[i]))
  }

  function WithoutScheme(d: string): string {
    if SchemeIndex(d) >= 0 then d[SchemeIndex(d) + 3..] else d
  }

  function WithoutUser(d: string): string {
    if LastIndex(d, '@') >= 0 then d[LastIndex(d, '@') + 1..] else d
  }

  function CutAt(d: string, sep: char): string {
    if Index(d, sep) >= 0 then d[..Index(d, sep)] else d
  }

  const SEPARATORS := ['/', '?', '#']

  function CutAtAll(d: string, seps: seq<char>): string {
    if seps == [] then d else CutAt(CutAtAll(d, seps[..|seps| - 1]), seps[|seps| - 1])
  }

  lemma NoCuts(d: string)
    ensures CutAtAll(d, SEPARATORS[..0]) == d
  {
  }

  lemma OneMoreCut(d: string, k: nat)
    requires k < |SEPARATORS|
    ensures CutAtAll(d, SEPARATORS[..k + 1]) == CutAt(CutAtAll(d, SEPARATORS[..k]), SEPARATORS[k])
  {
    assert SEPARATORS[..k + 1][..k] == SEPARATORS[..k];
  }

  // More than one colon is taken for an IPv6 address.
  function WithoutPort(d: string): string {
    if (':' !in d || Count(d, ':') == 1) && LastIndex(d, ':') >= 0 then d[..LastIndex(d, ':')] else d
  }

  function WithoutDot(d: string): string {
    if d != "" && d[|d| - 1] == '.' then d[..|d| - 1] else d
  }

  function HostOf(d: string): string {
    WithoutDot(WithoutPort(CutAtAll(d, SEPARATORS)))
  }

  function Normalized(t: Lib, x: string): string {
    if Trim(t, x) == "" then "" else HostOf(WithoutUser(WithoutScheme(Lower(t, Trim(t, x)))))
  }

  method NormalizeDomain(t: Lib, x: string) returns (d: string)
    ensures d == Normalized(t, x)
    ensures Sane(t) && ValidateDomain(t, x).None? ==> d == x
  {
    hide *;
    Stages(t, x);
    if Sane(t) && ValidateDomain(t, x).None? {
      ValidIsFixed(t, x);
    }
    d := Trim(t, x);
    if d == "" {
      return;
    }
    d := Lower(t, d);
    d := WithoutScheme(d);
    d := WithoutUser(d);
    d := StripPath(d);
    d := WithoutPort(d);
    d := WithoutDot(d);
  }

  lemma Stages(t: Lib, x: string)
    ensures var d := Trim(t, x);
            Normalized(t, x) ==
            if d == "" then ""
            else WithoutDot(WithoutPort(CutAtAll(WithoutUser(WithoutScheme(Lower(t, d))), SEPARATORS)))
  {
  }

  method StripPath(host: string) returns (d: string)
    ensures d == CutAtAll(host, SEPARATORS)
  {
    hide *;
    d := host;
    NoCuts(host);
    for k := 0 to |SEPARATORS|
      invariant d == CutAtAll(host, SEPARATORS[..k])
    {
      OneMoreCut(host, k);
      CutAtIs(d, SEPARATORS[k]);
      var i := Index(d, SEPARATORS[k]);
      if i >= 0 {
        d := d[..i];
      }
    }
    assert SEPARATORS[..|SEPARATORS|] == SEPARATORS;
  }

  lemma CutAtIs(d: string, sep: char)
    ensures CutAt(d, sep) == if Index(d, sep) >= 0 then d[..Index(d, sep)] else d
  {
  }

  // ---------- ValidateDomain ----------

  datatype Problem =
    | Empty | TooLong | IsAddress | OneLabel | EmptyLabel | LongLabel | OuterHyphen | BadCharacter
    | NotAddress | TooManyItems

  function Split(s: string): (labels: seq<string>)
    ensures |labels| >= 1
    decreases |s|
  {
    var i := Index(s, '.');
    if i < 0 then [s] else [s[..i]] + Split(s[i + 1..])
  }

  function LabelProblem(l: string): Option<Problem> {
    if l == "" then Some(EmptyLabel)
    else if |l| > MAX_LABEL then Some(LongLabel)
    else if l[0] == '-' || l[|l| - 1] == '-' then Some(OuterHyphen)
    else if exists i :: 0 <= i < |l| && !LabelChar(l[i]) then Some(BadCharacter)
    else None
  }

  function FirstProblem(labels: seq<string>): Option<Problem> {
    if labels == [] then None
    else if LabelProblem(labels[0]).Some? then LabelProblem(labels[0])
    else FirstProblem(labels[1..])
  }

  function ValidateDomain(t: Lib, d: string): Option<Problem> {
    if d == "" then Some(Empty)
    else if |d| > MAX_DOMAIN then Some(TooLong)
    else if t.parse(d).Canonical? then Some(IsAddress)
    else if |Split(d)| < 2 then Some(OneLabel)
    else FirstProblem(Split(d))
  }

  // ---------- What a valid domain is ----------

  predicate WellFormed(l: string) {
    && 1 <= |l| <= 63
    && l[0] != '-' && l[|l| - 1] != '-'
    && forall i :: 0 <= i < |l| ==> 'a' <= l[i] <= 'z' || '0' <= l[i] <= '9' || l[i] == '-'
  }

  predicate AllWellFormed(labels: seq<string>) {
    forall i :: 0 <= i < |labels| ==> WellFormed(labels[i])
  }

  function Join(labels: seq<string>): string
    requires labels != []
  {
    if |labels| == 1 then labels[0] else labels[0] + "." + Join(labels[1..])
  }

  lemma {:induction false} JoinSplit(s: string)
    ensures Join(Split(s)) == s
    decreases |s|
  {
    hide Index;
    var i := Index(s, '.');
    if i >= 0 {
      var first, rest := s[..i], s[i + 1..];
      JoinSplit(rest);
      JoinFirst(first, Split(rest));
      assert s == first + "." + rest;
    }
  }

  lemma JoinFirst(l: string, labels: seq<string>)
    requires labels != []
    ensures Join([l] + labels) == l + "." + Join(labels)
  {
  }

  lemma IndexIs(a: string, c: char, b: string)
    requires c !in a
    ensures Index(a + [c] + b, c) == |a|
  {
    var s := a + [c] + b;
    var i := Index(s, c);
    assert s[|a|] == c;
  }

  lemma SplitFirst(l: string, rest: string)
    requires '.' !in l
    ensures Split(l + "." + rest) == [l] + Split(rest)
  {
    hide Index;
    var s := l + ['.'] + rest;
    IndexIs(l, '.', rest);
    assert s == l + "." + rest;
    assert s[..|l|] == l && s[|l| + 1..] == rest;
  }

  lemma {:induction false} SplitJoin(labels: seq<string>)
    requires labels != [] && AllWellFormed(labels)
    ensures Split(Join(labels)) == labels
  {
    var l := labels[0];
    assert WellFormed(l);
    assert '.' !in l;
    if |labels| > 1 {
      var rest := labels[1..];
      assert AllWellFormed(rest) by {
        forall i | 0 <= i < |rest| ensures WellFormed(rest[i]) {
          assert WellFormed(labels[i + 1]);
        }
      }
      SplitJoin(rest);
      SplitFirst(l, Join(rest));
      assert labels == [l] + rest;
    }
  }

  lemma {:induction false} NoFirstProblem(labels: seq<string>)
    ensures FirstProblem(labels).None? <==> AllWellFormed(labels)
  {
    if labels != [] {
      NoFirstProblem(labels[1..]);
      assert labels == [labels[0]] + labels[1..];
      assert LabelProblem(labels[0]).None? <==> WellFormed(labels[0]);
    }
  }

  // A domain is valid exactly when it is two or more well-formed labels joined by dots, is short enough, and is no
  // address. The sizes are those of section 2.3.4 of RFC 1035.
  lemma ValidIff(t: Lib, d: string)
    ensures ValidateDomain(t, d).None? <==>
              && (exists labels :: |labels| >= 2 && AllWellFormed(labels) && d == Join(labels))
              && |d| <= 253 && t.parse(d).NotAnIP?
  {
    JoinSplit(d);
    NoFirstProblem(Split(d));
    forall labels | |labels| >= 2 && AllWellFormed(labels) && d == Join(labels)
      ensures Split(d) == labels && d != ""
    {
      SplitJoin(labels);
    }
  }

  // ---------- Valid domains are fixed points ----------

  lemma {:induction false} JoinIsHostText(labels: seq<string>)
    requires labels != [] && AllWellFormed(labels)
    ensures HostText(Join(labels)) && Join(labels) != "" && LabelChar(Join(labels)[|Join(labels)| - 1])
  {
    assert WellFormed(labels[0]);
    if |labels| > 1 {
      assert AllWellFormed(labels[1..]) by {
        forall i | 0 <= i < |labels| - 1 ensures WellFormed(labels[1..][i]) {
          assert WellFormed(labels[i + 1]);
        }
      }
      JoinIsHostText(labels[1..]);
    }
  }

  lemma ValidIsHost(t: Lib, d: string)
    requires ValidateDomain(t, d).None?
    ensures HostText(d) && d != "" && d[|d| - 1] != '.'
  {
    JoinSplit(d);
    NoFirstProblem(Split(d));
    JoinIsHostText(Split(d));
  }

  lemma TrimsNothing(t: Lib, s: string)
    requires s != "" && !t.isSpace(s[0]) && !t.isSpace(s[|s| - 1])
    ensures Trim(t, s) == s
  {
  }

  lemma HostIsLower(t: Lib, s: string)
    requires Sane(t) && HostText(s)
    ensures Lower(t, s) == s
  {
    forall i | 0 <= i < |s| ensures t.lower(s[i]) == s[i] {
      assert HostChar(s[i]);
    }
  }

  lemma NoScheme(s: string)
    requires ':' !in s
    ensures WithoutScheme(s) == s
  {
    if SchemeIndex(s) >= 0 {
      assert s[SchemeIndex(s)..SchemeIndex(s) + 3][0] == ':';
    }
  }

  lemma HostLacks(s: string, c: char)
    requires HostText(s) && !HostChar(c)
    ensures c !in s
  {
  }

  lemma CutsNothing(s: string)
    requires '/' !in s && '?' !in s && '#' !in s
    ensures CutAtAll(s, SEPARATORS) == s
  {
    CutsAre(s);
  }

  lemma CutsAre(s: string)
    ensures CutAtAll(s, SEPARATORS) == CutAt(CutAt(CutAt(s, '/'), '?'), '#')
  {
    NoCuts(s);
    OneMoreCut(s, 0);
    OneMoreCut(s, 1);
    OneMoreCut(s, 2);
    assert SEPARATORS[..3] == SEPARATORS;
  }

  // What the client accepted, the daemon's second normalisation leaves alone.
  lemma ValidIsFixed(t: Lib, d: string)
    requires Sane(t) && ValidateDomain(t, d).None?
    ensures Normalized(t, d) == d
  {
    ValidIsHost(t, d);
    assert HostChar(d[0]) && HostChar(d[|d| - 1]);
    TrimsNothing(t, d);
    HostIsLower(t, d);
    HostLacks(d, ':');
    HostLacks(d, '@');
    HostLacks(d, '/');
    HostLacks(d, '?');
    HostLacks(d, '#');
    NoScheme(d);
    CutsNothing(d);
  }

  // ---------- Lists of inputs ----------

  datatype Cleaned = Clean(text: string) | Bad(problem: Problem)

  datatype CleanList = Accepted(items: seq<string>) | Rejected(problem: Problem)

  function CleanDomain(t: Lib, x: string): Cleaned {
    match ValidateDomain(t, Normalized(t, x))
    case None => Clean(Normalized(t, x))
    case Some(p) => Bad(p)
  }

  // NormalizeIP: canonical text of whichever family.
  function CleanIP(t: Lib, x: string): Cleaned {
    match t.parse(Trim(t, x))
    case NotAnIP => Bad(NotAddress)
    case Canonical(_, text) => Clean(text)
  }

  // Each input cleaned, or the problem of the first bad one.
  function CleanAll(clean: string -> Cleaned, xs: seq<string>): CleanList {
    if xs == [] then Accepted([])
    else
      match CleanAll(clean, xs[..|xs| - 1])
      case Rejected(p) => Rejected(p)
      case Accepted(items) =>
        match clean(xs[|xs| - 1])
        case Clean(text) => Accepted(items + [text])
        case Bad(p) => Rejected(p)
  }

  lemma {:induction false} RejectionSticks(clean: string -> Cleaned, xs: seq<string>, n: nat)
    requires n <= |xs| && CleanAll(clean, xs[..n]).Rejected?
    ensures CleanAll(clean, xs) == CleanAll(clean, xs[..n])
    decreases |xs|
  {
    if n < |xs| {
      assert xs[..|xs| - 1][..n] == xs[..n];
      RejectionSticks(clean, xs[..|xs| - 1], n);
    } else {
      assert xs[..n] == xs;
    }
  }

  method CleanDomains(t: Lib, xs: seq<string>) returns (r: CleanList)
    ensures r == CleanAll(x => CleanDomain(t, x), xs)
  {
    ghost var clean := x => CleanDomain(t, x);
    var out: seq<string> := [];
    for i := 0 to |xs|
      invariant CleanAll(clean, xs[..i]) == Accepted(out)
    {
      assert xs[..i + 1][..i] == xs[..i];
      var d := NormalizeDomain(t, xs[i]);
      var problem := ValidateDomain(t, d);
      if problem.Some? {
        RejectionSticks(clean, xs, i + 1);
        return Rejected(problem.value);
      }
      out := out + [d];
    }
    assert xs[..|xs|] == xs;
    return Accepted(out);
  }

  method CleanIPs(t: Lib, xs: seq<string>) returns (r: CleanList)
    ensures r == CleanAll(x => CleanIP(t, x), xs)
  {
    ghost var clean := x => CleanIP(t, x);
    var out: seq<string> := [];
    for i := 0 to |xs|
      invariant CleanAll(clean, xs[..i]) == Accepted(out)
    {
      assert xs[..i + 1][..i] == xs[..i];
      var ip := CleanIP(t, xs[i]);
      if ip.Bad? {
        RejectionSticks(clean, xs, i + 1);
        return Rejected(ip.problem);
      }
      out := out + [ip.text];
    }
    assert xs[..|xs|] == xs;
    return Accepted(out);
  }

  lemma {:induction false} AcceptedIsFixed(clean: string -> Cleaned, xs: seq<string>)
    requires forall x :: clean(x).Clean? ==> clean(clean(x).text) == clean(x) && clean(x).text != ""
    requires CleanAll(clean, xs).Accepted?
    ensures var out := CleanAll(clean, xs).items;
            |out| == |xs| && CleanAll(clean, out) == Accepted(out) && "" !in out
  {
    if xs != [] {
      var init := xs[..|xs| - 1];
      AcceptedIsFixed(clean, init);
      var out := CleanAll(clean, xs).items;
      assert out[..|out| - 1] == CleanAll(clean, init).items;
    }
  }

  lemma DomainsClean(t: Lib, x: string)
    requires Sane(t) && CleanDomain(t, x).Clean?
    ensures CleanDomain(t, CleanDomain(t, x).text) == CleanDomain(t, x) && CleanDomain(t, x).text != ""
  {
    ValidIsFixed(t, Normalized(t, x));
  }

  lemma IPsClean(t: Lib, x: string)
    requires Sane(t) && CleanIP(t, x).Clean?
    ensures CleanIP(t, CleanIP(t, x).text) == CleanIP(t, x) && CleanIP(t, x).text != ""
  {
    hide Trim;
  }

  // A cleaned list is the inputs cleaned one by one; a refused one names what is wrong with the first bad input.
  lemma {:induction false} CleanAllIs(clean: string -> Cleaned, xs: seq<string>)
    ensures match CleanAll(clean, xs)
            case Accepted(out) => |out| == |xs| && forall i :: 0 <= i < |xs| ==> clean(xs[i]) == Clean(out[i])
            case Rejected(p) =>
              exists i :: 0 <= i < |xs| && clean(xs[i]) == Bad(p) && forall j :: 0 <= j < i ==> clean(xs[j]).Clean?
  {
    if xs != [] {
      var init := xs[..|xs| - 1];
      CleanAllIs(clean, init);
      if CleanAll(clean, init).Rejected? {
        var i :| 0 <= i < |init| && clean(init[i]) == Bad(CleanAll(clean, init).problem)
                 && forall j :: 0 <= j < i ==> clean(init[j]).Clean?;
        assert clean(xs[i]) == Bad(CleanAll(clean, init).problem);
      } else if clean(xs[|xs| - 1]).Bad? {
        assert clean(xs[|init|]) == Bad(CleanAll(clean, xs).problem);
        forall j | 0 <= j < |init| ensures clean(xs[j]).Clean? {
          assert clean(init[j]).Clean?;
        }
      }
    }
  }

  // An input is accepted as a domain exactly as its normal form, and exactly when that is two or more well-formed
  // labels joined by dots, short enough, and no address.
  lemma CleanDomainIff(t: Lib, x: string, d: string)
    ensures CleanDomain(t, x) == Clean(d) <==>
              && d == Normalized(t, x)
              && (exists labels :: |labels| >= 2 && AllWellFormed(labels) && d == Join(labels))
              && |d| <= 253 && t.parse(d).NotAnIP?
  {
    ValidIff(t, Normalized(t, x));
  }

  // And as an address exactly when it is one of either family with the spaces around it gone, as its canonical text.
  lemma CleanIPIff(t: Lib, x: string, text: string)
    ensures CleanIP(t, x) == Clean(text) <==>
              t.parse(Trim(t, x)) == Canonical(V4, text) || t.parse(Trim(t, x)) == Canonical(V6, text)
    ensures CleanIP(t, x).Clean? || CleanIP(t, x) == Bad(NotAddress)
  {
    var p := t.parse(Trim(t, x));
    assert p.Canonical? ==> p.family == V4 || p.family == V6;
  }

  // ---------- Spaces, case and problems ----------

  // Trimming takes the spaces off both ends and nothing else.
  lemma TrimIs(t: Lib, s: string)
    ensures var r := Trim(t, s);
            && (r != "" ==> !t.isSpace(r[0]) && !t.isSpace(r[|r| - 1]))
            && exists a, b ::
                 && s == a + r + b
                 && (forall i :: 0 <= i < |a| ==> t.isSpace(a[i])) && forall i :: 0 <= i < |b| ==> t.isSpace(b[i])
  {
    var a := TrimLeftIs(t, s);
    var b := TrimRightIs(t, TrimLeft(t, s));
    assert s == a + Trim(t, s) + b;
    if Trim(t, s) != "" {
      assert TrimLeft(t, s)[0] == Trim(t, s)[0];
    }
  }

  lemma {:induction false} TrimLeftIs(t: Lib, s: string) returns (a: string)
    ensures s == a + TrimLeft(t, s) && forall i :: 0 <= i < |a| ==> t.isSpace(a[i])
    ensures TrimLeft(t, s) != "" ==> !t.isSpace(TrimLeft(t, s)[0])
  {
    a := "";
    if s != "" && t.isSpace(s[0]) {
      var rest := TrimLeftIs(t, s[1..]);
      a := [s[0]] + rest;
    }
  }

  lemma {:induction false} TrimRightIs(t: Lib, s: string) returns (b: string)
    ensures s == TrimRight(t, s) + b && forall i :: 0 <= i < |b| ==> t.isSpace(b[i])
    ensures TrimRight(t, s) != "" ==> !t.isSpace(TrimRight(t, s)[|TrimRight(t, s)| - 1])
  {
    b := "";
    if s != "" && t.isSpace(s[|s| - 1]) {
      var rest := TrimRightIs(t, s[..|s| - 1]);
      b := rest + [s[|s| - 1]];
    }
  }

  // Inputs that differ in case only, and in the spaces around them, have the same normal form.
  lemma CaseDoesNotMatter(t: Lib, x: string, y: string)
    requires var a, b := Trim(t, x), Trim(t, y);
             |a| == |b| && forall i :: 0 <= i < |a| ==> t.lower(a[i]) == t.lower(b[i])
    ensures Normalized(t, x) == Normalized(t, y)
  {
    hide Trim, HostOf, WithoutUser, WithoutScheme;
    assert Lower(t, Trim(t, x)) == Lower(t, Trim(t, y));
  }

  // What the answer to an invalid domain says is so.
  lemma ProblemMeans(t: Lib, d: string)
    ensures var p := ValidateDomain(t, d);
            && (p == Some(Empty) <==> d == "")
            && (p == Some(TooLong) <==> |d| > 253)
            && (p == Some(IsAddress) <==> 0 < |d| <= 253 && t.parse(d).Canonical?)
            && (p == Some(OneLabel) <==> 0 < |d| <= 253 && t.parse(d).NotAnIP? && '.' !in d)
            && (p == Some(EmptyLabel) ==> exists l :: l in Split(d) && l == "")
            && (p == Some(LongLabel) ==> exists l :: l in Split(d) && |l| > 63)
            && (p == Some(OuterHyphen) ==> exists l :: l in Split(d) && l != "" && (l[0] == '-' || l[|l| - 1] == '-'))
            && (p == Some(BadCharacter) ==> exists i :: 0 <= i < |d| && !HostChar(d[i]))
  {
    SplitOne(d);
    if d != "" && |d| <= 253 && t.parse(d).NotAnIP? && '.' in d && FirstProblem(Split(d)).Some? {
      var l := FirstBad(Split(d));
      if LabelProblem(l) == Some(BadCharacter) {
        var i :| 0 <= i < |l| && !LabelChar(l[i]);
        LabelInside(d, l);
        assert l[i] in d && l[i] != '.';
      }
    }
  }

  lemma SplitOne(d: string)
    ensures |Split(d)| < 2 <==> '.' !in d
  {
  }

  lemma {:induction false} FirstBad(labels: seq<string>) returns (l: string)
    requires FirstProblem(labels).Some?
    ensures l in labels && LabelProblem(l) == FirstProblem(labels)
  {
    if LabelProblem(labels[0]).Some? {
      return labels[0];
    }
    l := FirstBad(labels[1..]);
  }

  lemma {:induction false} LabelInside(d: string, l: string)
    requires l in Split(d)
    ensures '.' !in l && forall c :: c in l ==> c in d
    decreases |d|
  {
    var i := Index(d, '.');
    if i >= 0 && l != d[..i] {
      LabelInside(d[i + 1..], l);
    }
  }

  // ---------- One request ----------

  datatype Inputs = Inputs(domains: seq<string>, ips: seq<string>)

  datatype Checked = Good(inputs: Inputs) | Refused(problem: Problem)

  // What a client makes of its own inputs, without the limit on their number.
  function ClientChecked(t: Lib, domains: seq<string>, ips: seq<string>): Checked {
    match CleanAll(x => CleanDomain(t, x), domains)
    case Rejected(p) => Refused(p)
    case Accepted(ds) =>
      match CleanAll(x => CleanIP(t, x), ips)
      case Rejected(p) => Refused(p)
      case Accepted(as_) => Good(Inputs(ds, as_))
  }

  function DaemonChecked(t: Lib, domains: seq<string>, ips: seq<string>): Checked {
    if |domains| + |ips| > MAX_ITEMS then Refused(TooManyItems) else ClientChecked(t, domains, ips)
  }

  method NormalizeAndValidate(t: Lib, domains: seq<string>, ips: seq<string>) returns (r: Checked)
    ensures r == DaemonChecked(t, domains, ips)
  {
    if |domains| + |ips| > MAX_ITEMS {
      return Refused(TooManyItems);
    }
    var ds := CleanDomains(t, domains);
    if ds.Rejected? {
      return Refused(ds.problem);
    }
    var as_ := CleanIPs(t, ips);
    if as_.Rejected? {
      return Refused(as_.problem);
    }
    return Good(Inputs(ds.items, as_.items));
  }

  // Inputs are taken exactly when there are not too many and each is clean, and then each as its clean text, domains as
  // domains and addresses as addresses.
  lemma GoodInputsIff(t: Lib, domains: seq<string>, ips: seq<string>, inputs: Inputs)
    ensures DaemonChecked(t, domains, ips) == Good(inputs) <==>
              && |domains| + |ips| <= 256
              && |inputs.domains| == |domains| && |inputs.ips| == |ips|
              && (forall i :: 0 <= i < |domains| ==> CleanDomain(t, domains[i]) == Clean(inputs.domains[i]))
              && (forall i :: 0 <= i < |ips| ==> CleanIP(t, ips[i]) == Clean(inputs.ips[i]))
  {
    hide CleanDomain, CleanIP;
    CleanedIff(x => CleanDomain(t, x), domains, inputs.domains);
    CleanedIff(x => CleanIP(t, x), ips, inputs.ips);
  }

  lemma CleanedIff(clean: string -> Cleaned, xs: seq<string>, out: seq<string>)
    ensures CleanAll(clean, xs) == Accepted(out) <==>
              |out| == |xs| && forall i :: 0 <= i < |xs| ==> clean(xs[i]) == Clean(out[i])
  {
    CleanAllIs(clean, xs);
    if |out| == |xs| && forall i :: 0 <= i < |xs| ==> clean(xs[i]) == Clean(out[i]) {
      match CleanAll(clean, xs)
      case Accepted(r) =>
        assert forall i :: 0 <= i < |xs| ==> Clean(r[i]) == clean(xs[i]) == Clean(out[i]);
        assert r == out;
      case Rejected(p) =>
    }
  }

  // Whatever the client accepted reaches the blocklist unchanged, unless there is too much of it; and it holds no empty
  // string, so what the daemon reports as changed is what changed.
  lemma AcceptedPassUnchanged(t: Lib, domains: seq<string>, ips: seq<string>)
    requires Sane(t) && ClientChecked(t, domains, ips).Good?
    ensures var c := ClientChecked(t, domains, ips);
            && DaemonChecked(t, c.inputs.domains, c.inputs.ips)
               == (if |domains| + |ips| > 256 then Refused(TooManyItems) else c)
            && "" !in c.inputs.domains && "" !in c.inputs.ips
  {
    hide CleanDomain, CleanIP;
    forall x | CleanDomain(t, x).Clean?
      ensures CleanDomain(t, CleanDomain(t, x).text) == CleanDomain(t, x) && CleanDomain(t, x).text != ""
    {
      DomainsClean(t, x);
    }
    forall x | CleanIP(t, x).Clean?
      ensures CleanIP(t, CleanIP(t, x).text) == CleanIP(t, x) && CleanIP(t, x).text != ""
    {
      IPsClean(t, x);
    }
    AcceptedIsFixed(x => CleanDomain(t, x), domains);
    AcceptedIsFixed(x => CleanIP(t, x), ips);
  }
}
