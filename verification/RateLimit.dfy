/** The fixed-window request limiter, and what it promises over sliding intervals of time. */
module RateLimit {
  import opened Sorting

  // The window a uid is in: when it began and how many requests it has admitted.
  datatype Window = Window(start: int, n: int)

  datatype Request = Request(uid: int, now: int)

  datatype Config = Config(limit: int, window: int)

  type Windows = map<int, Window>

  predicate Expired(c: Config, ws: Windows, r: Request) {
    r.uid !in ws || r.now - ws[r.uid].start > c.window
  }

  function Verdict(c: Config, ws: Windows, r: Request): bool {
    Expired(c, ws, r) || ws[r.uid].n < c.limit
  }

  function Next(c: Config, ws: Windows, r: Request): Windows {
    if Expired(c, ws, r) then ws[r.uid := Window(r.now, 1)]
    else if ws[r.uid].n < c.limit then ws[r.uid := ws[r.uid].(n := ws[r.uid].n + 1)]
    else ws
  }

  class WindowCount {
    var start: int
    var n: int

    constructor (start: int, n: int)
      ensures this.start == start && this.n == n
    {
      this.start, this.n := start, n;
    }
  }

  class RateLimiter {
    const config: Config
    var counts: map<int, WindowCount>

    ghost function Owned(): set<object> reads this {
      set uid | uid in counts :: counts[uid]
    }

    // No two uids share a count.
    ghost predicate Valid() reads this {
      forall a, b :: a in counts && b in counts && a != b ==> counts[a] != counts[b]
    }

    ghost function Value(): Windows
      reads this, Owned()
    {
      map uid | uid in counts :: Window(counts[uid].start, counts[uid].n)
    }

    constructor (limit: int, window: int)
      ensures Valid() && Value() == map[] && config == Config(limit, window) && Owned() == {}
    {
      config, counts := Config(limit, window), map[];
    }

    // now is the clock, read under the limiter's lock.
    method Allow(uid: int, now: int) returns (ok: bool)
      requires Valid()
      modifies this, Owned()
      ensures Valid() && fresh(Owned() - old(Owned()))
      ensures ok == Verdict(config, old(Value()), Request(uid, now))
      ensures Value() == Next(config, old(Value()), Request(uid, now))
    {
      if uid !in counts || now - counts[uid].start > config.window {
        ghost var before := Value();
        var wc := new WindowCount(now, 1);
        counts := counts[uid := wc];
        assert Value() == before[uid := Window(now, 1)];
        return true;
      }
      var wc := counts[uid];
      if wc.n >= config.limit {
        return false;
      }
      ghost var before := Value();
      assert forall u :: u in counts && u != uid ==> counts[u] != wc;
      wc.n := wc.n + 1;
      assert Value().Keys == before.Keys;
      assert forall u :: u in counts && u != uid ==> before[u] == Window(counts[u].start, counts[u].n);
      assert before[uid].(n := before[uid].n + 1) == Window(wc.start, wc.n);
      assert Value() == before[uid := before[uid].(n := before[uid].n + 1)];
      return true;
    }
  }

  // ---------- Runs ----------

  // The windows after serving requests, beginning with none.
  function After(c: Config, rs: seq<Request>): Windows {
    if rs == [] then map[] else Next(c, After(c, rs[..|rs| - 1]), rs[|rs| - 1])
  }

  // How many requests of the uid were admitted at times from a to b.
  function Admitted(c: Config, rs: seq<Request>, uid: int, a: int, b: int): nat {
    if rs == [] then 0
    else
      var init, r := rs[..|rs| - 1], rs[|rs| - 1];
      Admitted(c, init, uid, a, b)
      + (if r.uid == uid && a <= r.now <= b && Verdict(c, After(c, init), r) then 1 else 0)
  }

  // The clock never goes back.
  ghost predicate InOrder(rs: seq<Request>) {
    forall i, j :: 0 <= i < j < |rs| ==> rs[i].now <= rs[j].now
  }

  function Burst(c: Config): nat {
    if c.limit < 1 then 1 else c.limit
  }

  // ---------- The sliding bound ----------

  // The number of windows that can still begin from time t to time b.
  function Starts(t: int, b: int, w: nat): nat
    decreases b - t
  {
    if t > b then 0 else 1 + Starts(t + w + 1, b, w)
  }

  lemma {:induction false} StartsShrink(t: int, u: int, b: int, w: nat)
    requires t <= u
    ensures Starts(u, b, w) <= Starts(t, b, w)
    decreases b - t
  {
    if t <= b {
      StartsShrink(t + w + 1, u + w + 1, b, w);
    }
  }

  lemma {:induction false} StartsFit(t: int, b: int, w: nat)
    ensures Starts(t, b, w) > 0 ==> (Starts(t, b, w) - 1) * (w + 1) <= b - t
    decreases b - t
  {
    if t <= b {
      StartsFit(t + w + 1, b, w);
      var k := Starts(t + w + 1, b, w);
      assert k > 0 ==> k * (w + 1) == (k - 1) * (w + 1) + (w + 1);
    }
  }

  // An upper bound on what the uid will still be admitted from time a to time b.
  function Allowance(c: Config, ws: Windows, uid: int, a: int, b: int): nat
    requires c.window >= 0
  {
    if uid !in ws || ws[uid].start + c.window < a then Burst(c) * Starts(a, b, c.window)
    else
      (if ws[uid].n < Burst(c) then Burst(c) - ws[uid].n else 0)
        + Burst(c) * Starts(ws[uid].start + c.window + 1, b, c.window)
  }

  ghost predicate Counting(ws: Windows) {
    forall uid :: uid in ws ==> ws[uid].n >= 1
  }

  lemma {:induction false} AfterCounts(c: Config, rs: seq<Request>)
    ensures Counting(After(c, rs))
  {
    if rs != [] {
      AfterCounts(c, rs[..|rs| - 1]);
    }
  }

  // An admission is paid for out of the allowance.
  lemma AdmissionCosts(c: Config, ws: Windows, r: Request, uid: int, a: int, b: int)
    requires c.window >= 0 && a <= r.now <= b && Counting(ws)
    ensures Allowance(c, Next(c, ws, r), uid, a, b) + (if r.uid == uid && Verdict(c, ws, r) then 1 else 0)
            <= Allowance(c, ws, uid, a, b)
  {
    var w, m := c.window, Burst(c);
    if r.uid == uid && Expired(c, ws, r) {
      var t := if uid !in ws || ws[uid].start + w < a then a else ws[uid].start + w + 1;
      StartsShrink(t, r.now, b, w);
      var k := Starts(r.now + w + 1, b, w);
      assert Starts(r.now, b, w) == 1 + k;
      Scale(m, 1 + k, Starts(t, b, w));
      assert m * (1 + k) == m + m * k;
    }
  }

  lemma Scale(m: nat, x: nat, y: nat)
    requires x <= y
    ensures m * x <= m * y
  {
  }

  function CeilDiv(l: nat, d: nat): nat
    requires d > 0
  {
    (l + d - 1) / d
  }

  lemma CeilCovers(l: nat, d: nat)
    requires d > 0
    ensures CeilDiv(l, d) * d >= l
  {
  }

  // Windows that fit in an interval, beside one that was open before it.
  lemma StartsInInterval(a: int, l: nat, w: nat)
    ensures Starts(a, a + l, w) <= CeilDiv(l, w + 1) + 1
    ensures Starts(a + 1, a + l, w) <= CeilDiv(l, w + 1)
  {
    CeilCovers(l, w + 1);
    StartsFit(a, a + l, w);
    StartsFit(a + 1, a + l, w);
    var n := CeilDiv(l, w + 1);
    assert (n + 1) * (w + 1) == n * (w + 1) + (w + 1);
    if Starts(a, a + l, w) > 0 {
      Cancel(w + 1, Starts(a, a + l, w) - 1, n + 1);
    }
    if Starts(a + 1, a + l, w) > 0 {
      Cancel(w + 1, Starts(a + 1, a + l, w) - 1, n);
    }
  }

  lemma Cancel(m: nat, x: nat, y: nat)
    requires x * m < y * m
    ensures x < y
  {
    if y <= x {
      Scale(m, y, x);
    }
  }

  // What windows of length w let through in an interval of length l.
  function SlidingBound(c: Config, l: nat, w: nat): nat
    requires w > 0
  {
    (CeilDiv(l, w) + 1) * Burst(c)
  }

  lemma AllowanceFits(c: Config, ws: Windows, uid: int, a: int, l: nat)
    requires c.window >= 0 && Counting(ws)
    ensures Allowance(c, ws, uid, a, a + l) <= SlidingBound(c, l, c.window + 1)
  {
    hide Starts, Burst, CeilDiv;
    var w, m, n := c.window, Burst(c), CeilDiv(l, c.window + 1);
    StartsInInterval(a, l, w);
    if uid !in ws || ws[uid].start + w < a {
      Scale(m, Starts(a, a + l, w), n + 1);
    } else {
      StartsShrink(a + 1, ws[uid].start + w + 1, a + l, w);
      Scale(m, Starts(ws[uid].start + w + 1, a + l, w), n);
    }
    Distribute(m, n);
  }

  lemma Distribute(m: nat, n: nat)
    ensures (n + 1) * m == m * n + m == m * (n + 1)
  {
  }

  lemma {:induction false} Accounting(c: Config, rs: seq<Request>, uid: int, a: int, l: nat)
    requires c.window >= 0 && InOrder(rs)
    ensures if rs == [] || rs[|rs| - 1].now < a then Admitted(c, rs, uid, a, a + l) == 0
            else if rs[|rs| - 1].now <= a + l then
              Admitted(c, rs, uid, a, a + l) + Allowance(c, After(c, rs), uid, a, a + l)
                <= SlidingBound(c, l, c.window + 1)
            else Admitted(c, rs, uid, a, a + l) <= SlidingBound(c, l, c.window + 1)
  {
    hide Allowance, SlidingBound, Verdict, Next, Counting;
    if rs != [] {
      var init, r := rs[..|rs| - 1], rs[|rs| - 1];
      Accounting(c, init, uid, a, l);
      AfterCounts(c, init);
      AllowanceFits(c, After(c, init), uid, a, l);
      if a <= r.now <= a + l {
        AdmissionCosts(c, After(c, init), r, uid, a, a + l);
      }
    }
  }

  // In any closed interval of length l, whatever the requests before and in it, of this uid and of others, a uid is
  // admitted at most ceil(l / (window + 1)) + 1 times the limit: a window ends only once more than its length has
  // passed.
  lemma AdmitsAtMost(c: Config, rs: seq<Request>, uid: int, a: int, l: nat)
    requires c.window >= 0 && InOrder(rs)
    ensures Admitted(c, rs, uid, a, a + l) <= SlidingBound(c, l, c.window + 1)
  {
    Accounting(c, rs, uid, a, l);
  }

  // The bound in terms of the configured window.
  lemma AdmitsAtMostPerWindow(c: Config, rs: seq<Request>, uid: int, a: int, l: nat)
    requires c.window > 0 && InOrder(rs)
    ensures Admitted(c, rs, uid, a, a + l) <= SlidingBound(c, l, c.window)
  {
    hide SlidingBound, CeilDiv, Admitted, Burst, InOrder;
    AdmitsAtMost(c, rs, uid, a, l);
    LongerWindowsLetLess(c, l, c.window);
  }

  lemma LongerWindowsLetLess(c: Config, l: nat, w: nat)
    requires w > 0
    ensures SlidingBound(c, l, w + 1) <= SlidingBound(c, l, w)
  {
    hide CeilDiv, Burst;
    CeilShrinks(l, w);
    Scale(Burst(c), CeilDiv(l, w + 1) + 1, CeilDiv(l, w) + 1);
  }

  lemma CeilShrinks(l: nat, d: nat)
    requires d > 0
    ensures CeilDiv(l, d + 1) <= CeilDiv(l, d)
  {
    var n, m := CeilDiv(l, d), CeilDiv(l, d + 1);
    CeilCovers(l, d);
    assert m * (d + 1) <= l + d;
    assert n * (d + 1) == n * d + n;
    assert (n + 1) * (d + 1) == n * (d + 1) + (d + 1);
    if m > 0 {
      assert (m - 1) * (d + 1) == m * (d + 1) - (d + 1);
      if l > 0 {
        Cancel(d + 1, m - 1, n);
      }
    }
  }

  // When window k begins, if each begins as soon as it can.
  function StartOf(c: Config, k: nat): int {
    if k == 0 then 0 else StartOf(c, k - 1) + c.window + 1
  }

  // A full burst at the beginning of each of k + 1 such windows.
  function Bursts(c: Config, uid: int, k: nat): seq<Request> {
    (if k == 0 then [] else Bursts(c, uid, k - 1)) + Repeated(Request(uid, StartOf(c, k)), Burst(c))
  }

  function Repeated(r: Request, n: nat): seq<Request> {
    if n == 0 then [] else Repeated(r, n - 1) + [r]
  }

  // The bound is reached: over k windows, k + 1 bursts are admitted.
  lemma BoundReached(c: Config, uid: int, k: nat)
    requires c.window >= 0
    ensures var rs, l := Bursts(c, uid, k), k * (c.window + 1);
            InOrder(rs) && Admitted(c, rs, uid, 0, l) == SlidingBound(c, l, c.window + 1)
  {
    hide Bursts, CeilDiv, Admitted, Burst, InOrder, StartOf;
    StartIs(c, k);
    BurstsAdmitted(c, uid, k, StartOf(c, k));
    CeilExact(k, c.window + 1);
  }

  lemma {:induction false} StartIs(c: Config, k: nat)
    ensures StartOf(c, k) == k * (c.window + 1)
  {
    if k > 0 {
      StartIs(c, k - 1);
      assert k * (c.window + 1) == (k - 1) * (c.window + 1) + (c.window + 1);
    }
  }

  lemma CeilExact(k: nat, d: nat)
    requires d > 0
    ensures CeilDiv(k * d, d) == k
  {
    var q := CeilDiv(k * d, d);
    CeilCovers(k * d, d);
    assert (q + 1) * d == q * d + d && (k + 1) * d == k * d + d;
    assert q * d <= k * d + d - 1;
    Cancel(d, q, k + 1);
    Cancel(d, k, q + 1);
  }

  lemma {:induction false} BurstsAdmitted(c: Config, uid: int, k: nat, b: int)
    requires c.window >= 0 && StartOf(c, k) <= b
    ensures var rs := Bursts(c, uid, k);
            && InOrder(rs) && (forall i :: 0 <= i < |rs| ==> rs[i].now <= StartOf(c, k)) && StartOf(c, k) >= 0
            && uid in After(c, rs) && After(c, rs)[uid].start == StartOf(c, k)
            && Admitted(c, rs, uid, 0, b) == (k + 1) * Burst(c)
  {
    hide InOrder, After, Admitted, Repeated;
    assert After(c, []) == map[] && Admitted(c, [], uid, 0, b) == 0 && InOrder([]) by { EmptyRun(c, uid, b); }
    var r := Request(uid, StartOf(c, k));
    if k > 0 {
      BurstsAdmitted(c, uid, k - 1, b);
      assert (k + 1) * Burst(c) == k * Burst(c) + Burst(c);
    }
    var before := if k == 0 then [] else Bursts(c, uid, k - 1);
    BurstAdmitted(c, before, r, Burst(c), b);
    BurstInOrder(before, r, Burst(c));
  }

  lemma EmptyRun(c: Config, uid: int, b: int)
    ensures After(c, []) == map[] && Admitted(c, [], uid, 0, b) == 0 && InOrder([])
  {
  }

  lemma {:induction false} BurstInOrder(rs: seq<Request>, r: Request, n: nat)
    requires InOrder(rs) && forall i :: 0 <= i < |rs| ==> rs[i].now <= r.now
    ensures var rs' := rs + Repeated(r, n); InOrder(rs') && forall i :: 0 <= i < |rs'| ==> rs'[i].now <= r.now
  {
    if n > 0 {
      BurstInOrder(rs, r, n - 1);
      assert rs + Repeated(r, n) == (rs + Repeated(r, n - 1)) + [r];
    }
  }

  lemma {:induction false} BurstAdmitted(c: Config, rs: seq<Request>, r: Request, n: nat, b: int)
    requires Expired(c, After(c, rs), r) && 0 <= r.now <= b && n <= Burst(c) && c.window >= 0
    ensures var rs' := rs + Repeated(r, n);
            && Admitted(c, rs', r.uid, 0, b) == Admitted(c, rs, r.uid, 0, b) + n
            && (if n == 0 then rs' == rs else r.uid in After(c, rs') && After(c, rs')[r.uid] == Window(r.now, n))
  {
    hide After, Admitted;
    if n == 0 {
      assert rs + Repeated(r, n) == rs;
    } else {
      var init := rs + Repeated(r, n - 1);
      BurstAdmitted(c, rs, r, n - 1, b);
      assert rs + Repeated(r, n) == init + [r];
      OneMore(c, init, r, b);
    }
  }

  lemma OneMore(c: Config, init: seq<Request>, r: Request, b: int)
    ensures After(c, init + [r]) == Next(c, After(c, init), r)
    ensures 0 <= r.now <= b ==>
              Admitted(c, init + [r], r.uid, 0, b)
              == Admitted(c, init, r.uid, 0, b) + (if Verdict(c, After(c, init), r) then 1 else 0)
  {
    assert (init + [r])[..|init|] == init;
  }

  // ---------- No starvation ----------

  // The open window of a uid began with an admission, and its count is what the uid was admitted since.
  lemma {:induction false} CountsAdmissions(c: Config, rs: seq<Request>, uid: int)
    requires InOrder(rs) && c.window >= 0
    ensures var ws := After(c, rs);
            if uid in ws then
              && rs != [] && ws[uid].start <= rs[|rs| - 1].now
              && forall b :: b >= rs[|rs| - 1].now ==> Admitted(c, rs, uid, ws[uid].start, b) >= ws[uid].n
            else forall r :: r in rs ==> r.uid != uid
  {
    if rs != [] {
      var init, r := rs[..|rs| - 1], rs[|rs| - 1];
      CountsAdmissions(c, init, uid);
    }
  }

  // A request is refused only if its uid has been admitted limit times, and once at least, in the window's length
  // before it; so a uid whose window began longer ago is always admitted.
  lemma RefusedOnlyWhenBusy(c: Config, rs: seq<Request>, r: Request)
    requires InOrder(rs + [r]) && c.window >= 0 && !Verdict(c, After(c, rs), r)
    ensures Admitted(c, rs, r.uid, r.now - c.window, r.now) >= Burst(c)
  {
    assert forall i :: 0 <= i < |rs| ==> (rs + [r])[i] == rs[i];
    CountsAdmissions(c, rs, r.uid);
    AfterCounts(c, rs);
    var ws := After(c, rs);
    WiderAdmitsMore(c, rs, r.uid, r.now - c.window, ws[r.uid].start, r.now);
    assert (rs + [r])[|rs|] == r && (rs + [r])[|rs| - 1] == rs[|rs| - 1];
  }

  lemma {:induction false} WiderAdmitsMore(c: Config, rs: seq<Request>, uid: int, a: int, a': int, b: int)
    requires a <= a'
    ensures Admitted(c, rs, uid, a', b) <= Admitted(c, rs, uid, a, b)
  {
    if rs != [] {
      WiderAdmitsMore(c, rs[..|rs| - 1], uid, a, a', b);
    }
  }

  // ---------- Independence ----------

  function Of(rs: seq<Request>, uid: int): seq<Request> {
    if rs == [] then []
    else Of(rs[..|rs| - 1], uid) + (if rs[|rs| - 1].uid == uid then [rs[|rs| - 1]] else [])
  }

  // What other uids request changes nothing for a uid.
  lemma {:induction false} OthersDoNotMatter(c: Config, rs: seq<Request>, r: Request)
    ensures Verdict(c, After(c, rs), r) == Verdict(c, After(c, Of(rs, r.uid)), r)
    ensures forall x :: x in Of(rs, r.uid) <==> x in rs && x.uid == r.uid
  {
    OfIs(rs, r.uid);
    SameWindow(c, rs, r.uid);
  }

  lemma {:induction false} OfIs(rs: seq<Request>, uid: int)
    ensures forall x :: x in Of(rs, uid) <==> x in rs && x.uid == uid
  {
    if rs != [] {
      var init, last := rs[..|rs| - 1], rs[|rs| - 1];
      OfIs(init, uid);
      assert rs == init + [last];
    }
  }

  lemma {:induction false} SameWindow(c: Config, rs: seq<Request>, uid: int)
    ensures var a, b := After(c, rs), After(c, Of(rs, uid));
            (uid in a <==> uid in b) && (uid in a ==> a[uid] == b[uid])
  {
    if rs != [] {
      var init, last := rs[..|rs| - 1], rs[|rs| - 1];
      SameWindow(c, init, uid);
      if last.uid == uid {
        var own := Of(init, uid) + [last];
        assert own[..|own| - 1] == Of(init, uid);
      } else {
        assert Of(rs, uid) == Of(init, uid);
      }
    }
  }
}
