/**
 The resolver's worker pool: a feeder, workers, a closer and a collector over two unbuffered channels, as a transition
 system. A send and its receive are one step. What a lookup answers is not decided here.
 */
module Resolver {
  import opened Sorting
  import opened Engine

  // The answer of one lookup: addresses, or the text of the error.
  datatype Answer = Found(addrs: Resolved) | Failed(error: string)

  datatype Outcome = Outcome(domain: string, answer: Answer)

  datatype Worker =
    | Idle                  // at the head of its loop over jobs
    | Busy(domain: string)  // looking up
    | Sending(outcome: Outcome)
    | Exited

  datatype Pool = Pool(
    pending: seq<string>,   // what the feeder still has to send
    jobsClosed: bool,
    workers: seq<Worker>,
    outClosed: bool,
    results: map<string, Resolved>,
    failures: map<string, string>,
    returned: bool,
    answers: seq<Outcome>,  // all lookups made so far
    collected: seq<Outcome>) // all outcomes received so far

  function WorkersFor(concurrency: int): nat {
    if concurrency < 1 then 1 else concurrency
  }

  function Started(domains: seq<string>, concurrency: int): Pool {
    if domains == [] then Pool([], true, [], true, map[], map[], true, [], [])
    else Pool(domains, false, seq(WorkersFor(concurrency), _ => Idle), false, map[], map[], false, [], [])
  }

  datatype Label =
    | Feed(w: nat)
    | CloseJobs
    | Lookup(w: nat, answer: Answer)
    | Collect(w: nat)
    | Exit(w: nat)
    | CloseOut
    | Return

  // What lets each goroutine move. No guard of a send looks at whether its channel is open: that it is has to be
  // proved.
  predicate Enabled(p: Pool, l: Label) {
    match l
    case Feed(w) => p.pending != [] && w < |p.workers| && p.workers[w].Idle?
    case CloseJobs => p.pending == [] && !p.jobsClosed
    case Lookup(w, _) => w < |p.workers| && p.workers[w].Busy?
    case Collect(w) => w < |p.workers| && p.workers[w].Sending? && !p.returned
    case Exit(w) => w < |p.workers| && p.workers[w].Idle? && p.jobsClosed
    case CloseOut => !p.outClosed && forall w :: 0 <= w < |p.workers| ==> p.workers[w].Exited?
    case Return => p.outClosed && !p.returned
  }

  function Set(p: Pool, w: nat, worker: Worker): Pool
    requires w < |p.workers|
  {
    p.(workers := p.workers[w := worker])
  }

  function Do(p: Pool, l: Label): Pool
    requires Enabled(p, l)
  {
    match l
    case Feed(w) => Set(p, w, Busy(p.pending[0])).(pending := p.pending[1..])
    case CloseJobs => p.(jobsClosed := true)
    case Lookup(w, answer) =>
      var o := Outcome(p.workers[w].domain, answer);
      Set(p, w, Sending(o)).(answers := p.answers + [o])
    case Collect(w) =>
      var o := p.workers[w].outcome;
      var p' := Set(p, w, Idle).(collected := p.collected + [o]);
      if o.answer.Found? then p'.(results := p.results[o.domain := o.answer.addrs])
      else p'.(failures := p.failures[o.domain := o.answer.error])
    case Exit(w) => Set(p, w, Exited)
    case CloseOut => p.(outClosed := true)
    case Return => p.(returned := true)
  }

  // A schedule: any sequence of steps, each enabled where it is taken.
  predicate Run(p: Pool, labels: seq<Label>)
    decreases labels
  {
    labels != [] ==> Enabled(p, labels[0]) && Run(Do(p, labels[0]), labels[1..])
  }

  function After(p: Pool, labels: seq<Label>): Pool
    requires Run(p, labels)
    decreases labels
  {
    if labels == [] then p else After(Do(p, labels[0]), labels[1..])
  }

  // ---------- What the workers hold ----------

  // All that the workers hold, by what each one holds.
  function Gather<T>(ws: seq<Worker>, holds: Worker -> multiset<T>): multiset<T> {
    if ws == [] then multiset{} else holds(ws[0]) + Gather(ws[1..], holds)
  }

  function Domain(w: Worker): multiset<string> {
    if w.Busy? then multiset{w.domain} else multiset{}
  }

  function Result(w: Worker): multiset<Outcome> {
    if w.Sending? then multiset{w.outcome} else multiset{}
  }

  function LookingUp(ws: seq<Worker>): multiset<string> {
    Gather(ws, Domain)
  }

  function Unsent(ws: seq<Worker>): multiset<Outcome> {
    Gather(ws, Result)
  }

  function StepsLeft(w: Worker): nat {
    match w
    case Idle => 1
    case Busy(_) => 3
    case Sending(_) => 2
    case Exited => 0
  }

  function AllStepsLeft(ws: seq<Worker>): nat {
    if ws == [] then 0 else StepsLeft(ws[0]) + AllStepsLeft(ws[1..])
  }

  function DomainsOf(os: seq<Outcome>): seq<string> {
    seq(|os|, i requires 0 <= i < |os| => os[i].domain)
  }

  lemma {:induction false} Replacing<T>(ws: seq<Worker>, holds: Worker -> multiset<T>, i: nat, w: Worker)
    requires i < |ws|
    ensures holds(ws[i]) <= Gather(ws, holds)
    ensures Gather(ws[i := w], holds) == Gather(ws, holds) - holds(ws[i]) + holds(w)
  {
    var ws' := ws[i := w];
    if i == 0 {
      assert ws'[1..] == ws[1..];
    } else {
      Replacing(ws[1..], holds, i - 1, w);
      assert ws'[1..] == ws[1..][i - 1 := w];
    }
  }

  lemma DomainsReplacing(ws: seq<Worker>, i: nat, w: Worker)
    requires i < |ws|
    ensures Domain(ws[i]) <= LookingUp(ws) && LookingUp(ws[i := w]) == LookingUp(ws) - Domain(ws[i]) + Domain(w)
  {
    Replacing(ws, Domain, i, w);
  }

  lemma ResultsReplacing(ws: seq<Worker>, i: nat, w: Worker)
    requires i < |ws|
    ensures Result(ws[i]) <= Unsent(ws) && Unsent(ws[i := w]) == Unsent(ws) - Result(ws[i]) + Result(w)
  {
    Replacing(ws, Result, i, w);
  }

  lemma {:induction false} StepsReplacing(ws: seq<Worker>, i: nat, w: Worker)
    requires i < |ws|
    ensures AllStepsLeft(ws[i := w]) + StepsLeft(ws[i]) == AllStepsLeft(ws) + StepsLeft(w)
  {
    var ws' := ws[i := w];
    if i == 0 {
      assert ws'[1..] == ws[1..];
    } else {
      StepsReplacing(ws[1..], i - 1, w);
      assert ws'[1..] == ws[1..][i - 1 := w];
    }
  }

  // ---------- The invariant ----------

  // Every domain, as often as it was given, is pending, being looked up, or has been looked up.
  ghost predicate Conserved(p: Pool, domains: seq<string>) {
    && multiset(domains) == multiset(p.pending) + LookingUp(p.workers) + multiset(DomainsOf(p.answers))
    && Balanced(p.answers, p.workers, p.collected)
  }

  // Every answer is on its way to the collector or has been collected.
  ghost predicate Balanced(answers: seq<Outcome>, ws: seq<Worker>, collected: seq<Outcome>) {
    multiset(answers) == Unsent(ws) + multiset(collected)
  }

  // The two maps hold what was collected.
  ghost predicate Sorted(collected: seq<Outcome>, results: map<string, Resolved>, failures: map<string, string>) {
    && (forall d :: d in results ==> Outcome(d, Found(results[d])) in collected)
    && (forall d :: d in failures ==> Outcome(d, Failed(failures[d])) in collected)
    && (forall o :: o in collected ==> if o.answer.Found? then o.domain in results else o.domain in failures)
  }

  // Channels are closed only after their last send.
  ghost predicate ClosedAfterUse(p: Pool) {
    && (p.jobsClosed ==> p.pending == [])
    && (forall w :: 0 <= w < |p.workers| && p.workers[w].Exited? ==> p.jobsClosed)
    && (p.outClosed ==> p.jobsClosed && forall w :: 0 <= w < |p.workers| ==> p.workers[w].Exited?)
    && (p.returned ==> p.outClosed)
    && (p.workers == [] ==> p.returned)
  }

  ghost predicate Inv(p: Pool, domains: seq<string>, n: nat) {
    Conserved(p, domains) && Sorted(p.collected, p.results, p.failures) && ClosedAfterUse(p) && |p.workers| == n
  }

  lemma {:induction false} NobodyHoldsAnything(ws: seq<Worker>)
    requires forall i :: 0 <= i < |ws| ==> ws[i].Idle? || ws[i].Exited?
    ensures LookingUp(ws) == multiset{} && Unsent(ws) == multiset{}
    ensures (forall i :: 0 <= i < |ws| ==> ws[i].Exited?) ==> AllStepsLeft(ws) == 0
    ensures (forall i :: 0 <= i < |ws| ==> ws[i].Idle?) ==> AllStepsLeft(ws) == |ws|
  {
    if ws != [] {
      NobodyHoldsAnything(ws[1..]);
    }
  }

  function PoolSize(domains: seq<string>, concurrency: int): nat {
    if domains == [] then 0 else WorkersFor(concurrency)
  }

  lemma StartedInv(domains: seq<string>, concurrency: int)
    ensures Inv(Started(domains, concurrency), domains, PoolSize(domains, concurrency))
  {
    NobodyHoldsAnything(Started(domains, concurrency).workers);
  }

  predicate Moves(l: Label) {
    l.Feed? || l.Lookup? || l.Collect? || l.Exit?
  }

  // A domain moves from the feeder to a worker, and from there to the answers.
  lemma DomainMoves(pending: seq<string>, ws: seq<Worker>, i: nat, w: Worker)
    requires i < |ws|
    ensures !ws[i].Busy? && !w.Busy? ==> LookingUp(ws[i := w]) == LookingUp(ws)
    ensures pending != [] && ws[i].Idle? && w == Busy(pending[0]) ==>
              multiset(pending[1..]) + LookingUp(ws[i := w]) == multiset(pending) + LookingUp(ws)
  {
    hide LookingUp;
    DomainsReplacing(ws, i, w);
    if pending != [] {
      assert pending == [pending[0]] + pending[1..];
    }
  }

  lemma AnswerMoves(pending: seq<string>, ws: seq<Worker>, answers: seq<Outcome>, i: nat, w: Worker)
    requires i < |ws|
    ensures w.Sending? && ws[i] == Busy(w.outcome.domain) ==>
              multiset(pending) + LookingUp(ws[i := w]) + multiset(DomainsOf(answers + [w.outcome]))
                == multiset(pending) + LookingUp(ws) + multiset(DomainsOf(answers))
  {
    hide LookingUp, DomainsOf;
    DomainsReplacing(ws, i, w);
    if w.Sending? {
      LogGrows(answers, w.outcome);
    }
  }

  lemma LogGrows(os: seq<Outcome>, o: Outcome)
    ensures DomainsOf(os + [o]) == DomainsOf(os) + [o.domain]
  {
  }

  // An outcome moves from a lookup to its worker, and from there to the collector.
  lemma ResultMoves(answers: seq<Outcome>, ws: seq<Worker>, collected: seq<Outcome>, i: nat, w: Worker)
    requires i < |ws|
    requires Balanced(answers, ws, collected)
    ensures !ws[i].Sending? && !w.Sending? ==> Balanced(answers, ws[i := w], collected)
    ensures !ws[i].Sending? && w.Sending? ==> Balanced(answers + [w.outcome], ws[i := w], collected)
    ensures ws[i].Sending? && !w.Sending? ==> Balanced(answers, ws[i := w], collected + [ws[i].outcome])
  {
    hide Unsent;
    ResultsReplacing(ws, i, w);
  }

  lemma StepConservesDomains(p: Pool, domains: seq<string>, l: Label)
    requires Enabled(p, l) && Conserved(p, domains)
    ensures var p' := Do(p, l);
      multiset(domains) == multiset(p'.pending) + LookingUp(p'.workers) + multiset(DomainsOf(p'.answers))
  {
    hide LookingUp, Unsent, DomainsOf;
    if Moves(l) {
      DomainMoves(p.pending, p.workers, l.w, Do(p, l).workers[l.w]);
      AnswerMoves(p.pending, p.workers, p.answers, l.w, Do(p, l).workers[l.w]);
    }
  }

  lemma StepConservesAnswers(p: Pool, l: Label)
    requires Enabled(p, l) && Balanced(p.answers, p.workers, p.collected)
    ensures var p' := Do(p, l); Balanced(p'.answers, p'.workers, p'.collected)
  {
    hide Balanced;
    if Moves(l) {
      ResultMoves(p.answers, p.workers, p.collected, l.w, Do(p, l).workers[l.w]);
    }
  }

  lemma StepConserves(p: Pool, domains: seq<string>, l: Label)
    requires Conserved(p, domains) && Enabled(p, l)
    ensures Conserved(Do(p, l), domains)
  {
    hide Do, Enabled;
    StepConservesDomains(p, domains, l);
    StepConservesAnswers(p, l);
  }

  lemma CollectSorts(collected: seq<Outcome>, results: map<string, Resolved>, failures: map<string, string>, o: Outcome)
    requires Sorted(collected, results, failures)
    ensures if o.answer.Found? then Sorted(collected + [o], results[o.domain := o.answer.addrs], failures)
            else Sorted(collected + [o], results, failures[o.domain := o.answer.error])
  {
    assert forall x :: x in collected + [o] <==> x in collected || x == o;
  }

  lemma StepSorts(p: Pool, l: Label)
    requires Sorted(p.collected, p.results, p.failures) && Enabled(p, l)
    ensures var p' := Do(p, l); Sorted(p'.collected, p'.results, p'.failures)
  {
    hide Sorted;
    if l.Collect? {
      CollectSorts(p.collected, p.results, p.failures, p.workers[l.w].outcome);
    }
  }

  lemma StepCloses(p: Pool, l: Label)
    requires ClosedAfterUse(p) && Enabled(p, l)
    ensures ClosedAfterUse(Do(p, l))
  {
    if l.CloseOut? {
      assert p.workers[0].Exited?;
    }
  }

  lemma StepKeepsInv(p: Pool, domains: seq<string>, n: nat, l: Label)
    requires Inv(p, domains, n) && Enabled(p, l)
    ensures Inv(Do(p, l), domains, n)
  {
    hide Conserved, Sorted, ClosedAfterUse;
    StepConserves(p, domains, l);
    StepSorts(p, l);
    StepCloses(p, l);
  }

  // ---------- Progress ----------

  function Measure(p: Pool): nat {
    3 * |p.pending| + AllStepsLeft(p.workers)
    + (if p.jobsClosed then 0 else 1) + (if p.outClosed then 0 else 1) + (if p.returned then 0 else 1)
  }

  // Every step, whoever takes it, brings the end nearer by one.
  lemma StepCounts(p: Pool, l: Label)
    requires Enabled(p, l)
    ensures Measure(Do(p, l)) == Measure(p) - 1
  {
    hide AllStepsLeft;
    if Moves(l) {
      StepsReplacing(p.workers, l.w, Do(p, l).workers[l.w]);
    }
  }

  // A pool that has not returned is never stuck.
  lemma NoDeadlock(p: Pool, domains: seq<string>, n: nat)
    requires Inv(p, domains, n)
    ensures p.returned <==> forall l :: !Enabled(p, l)
  {
    if !p.returned {
      if p.outClosed {
        assert Enabled(p, Return);
      } else if w: nat :| w < |p.workers| && !p.workers[w].Exited? {
        match p.workers[w]
        case Busy(_) => assert Enabled(p, Lookup(w, Failed("")));
        case Sending(_) => assert Enabled(p, Collect(w));
        case Idle =>
          if p.pending != [] {
            assert Enabled(p, Feed(w));
          } else if p.jobsClosed {
            assert Enabled(p, Exit(w));
          } else {
            assert Enabled(p, CloseJobs);
          }
      } else {
        assert Enabled(p, CloseOut);
      }
    }
  }

  lemma {:induction false} RunKeepsInv(p: Pool, domains: seq<string>, n: nat, labels: seq<Label>)
    requires Inv(p, domains, n) && Run(p, labels)
    ensures Inv(After(p, labels), domains, n) && Measure(After(p, labels)) + |labels| == Measure(p)
    decreases labels
  {
    hide Inv, Do, Enabled, Measure;
    if labels != [] {
      StepKeepsInv(p, domains, n, labels[0]);
      StepCounts(p, labels[0]);
      RunKeepsInv(Do(p, labels[0]), domains, n, labels[1..]);
    }
  }

  // Every schedule takes the same number of steps, and it has returned exactly when it has taken them: no deadlock, no
  // livelock, and no goroutine left behind.
  lemma EveryScheduleEnds(domains: seq<string>, concurrency: int, labels: seq<Label>)
    requires Run(Started(domains, concurrency), labels)
    ensures var total := if domains == [] then 0 else 3 * |domains| + (if concurrency < 1 then 1 else concurrency) + 3;
            var p := After(Started(domains, concurrency), labels);
            && |labels| <= total
            && (p.returned <==> |labels| == total)
            && (p.returned <==> forall l :: !Enabled(p, l))
            && (p.returned ==> p.jobsClosed && p.outClosed && forall w :: 0 <= w < |p.workers| ==> p.workers[w].Exited?)
  {
    hide Run, After, Enabled, Do;
    var start := Started(domains, concurrency);
    StartedInv(domains, concurrency);
    NobodyHoldsAnything(start.workers);
    RunKeepsInv(start, domains, PoolSize(domains, concurrency), labels);
    var p := After(start, labels);
    NoDeadlock(p, domains, PoolSize(domains, concurrency));
    if p.returned {
      NobodyHoldsAnything(p.workers);
    }
  }

  // Nothing is sent on a closed channel and no channel is closed twice, and the lookups in flight never outnumber the
  // workers.
  lemma SafeChannels(domains: seq<string>, concurrency: int, labels: seq<Label>, l: Label)
    requires Run(Started(domains, concurrency), labels) && Enabled(After(Started(domains, concurrency), labels), l)
    ensures var p := After(Started(domains, concurrency), labels);
            && (l.Feed? || l.CloseJobs? ==> !p.jobsClosed)
            && (l.Collect? || l.CloseOut? ==> !p.outClosed)
            && |LookingUp(p.workers)| <= (if concurrency < 1 then 1 else concurrency)
  {
    hide Run, After, Conserved, Sorted;
    var p := After(Started(domains, concurrency), labels);
    StartedInv(domains, concurrency);
    RunKeepsInv(Started(domains, concurrency), domains, PoolSize(domains, concurrency), labels);
    AtMostOneEach(p.workers);
  }

  lemma {:induction false} AtMostOneEach(ws: seq<Worker>)
    ensures |LookingUp(ws)| <= |ws|
  {
    if ws != [] {
      AtMostOneEach(ws[1..]);
    }
  }

  // ---------- The result ----------

  // Every domain is looked up once for each time it was given, all answers are collected, and for distinct domains each
  // is in exactly one of the two maps, with the answer of its one lookup.
  lemma ExactlyOnce(domains: seq<string>, concurrency: int, labels: seq<Label>)
    requires Run(Started(domains, concurrency), labels) && After(Started(domains, concurrency), labels).returned
    ensures var p := After(Started(domains, concurrency), labels);
            && multiset(DomainsOf(p.answers)) == multiset(domains)
            && p.results.Keys + p.failures.Keys == Elements(domains)
            && (Distinct(domains) ==>
                  && p.results.Keys !! p.failures.Keys
                  && forall o :: o in p.answers ==>
                       if o.answer.Found? then o.domain in p.results && p.results[o.domain] == o.answer.addrs
                       else o.domain in p.failures && p.failures[o.domain] == o.answer.error)
  {
    hide Run, After, Enabled, Do, DomainsOf, Gather, Elements, Distinct;
    var p := After(Started(domains, concurrency), labels);
    StartedInv(domains, concurrency);
    RunKeepsInv(Started(domains, concurrency), domains, PoolSize(domains, concurrency), labels);
    NobodyHoldsAnything(p.workers);
    assert multiset(p.answers) == multiset(p.collected);
    SameMembers(p.answers, p.collected);
    SameMembers(DomainsOf(p.answers), domains);
    AllSorted(p, domains);
    if Distinct(domains) {
      DistinctMultiset(domains, DomainsOf(p.answers));
      forall a, b | a in p.answers && b in p.answers && a.domain == b.domain ensures a == b {
        OneAnswer(p.answers, a, b);
      }
    }
  }

  lemma AllSorted(p: Pool, domains: seq<string>)
    requires Sorted(p.collected, p.results, p.failures) && (forall o :: o in p.answers <==> o in p.collected)
    requires forall d :: d in DomainsOf(p.answers) <==> d in domains
    ensures p.results.Keys + p.failures.Keys == Elements(domains)
  {
    forall o | o in p.answers ensures o.domain in domains {
      var i :| 0 <= i < |p.answers| && p.answers[i] == o;
      assert DomainsOf(p.answers)[i] == o.domain;
    }
    forall d | d in domains ensures d in p.results || d in p.failures {
      var i :| 0 <= i < |p.answers| && DomainsOf(p.answers)[i] == d;
      assert p.answers[i] in p.collected;
    }
  }

  lemma SameMembers<T>(a: seq<T>, b: seq<T>)
    requires multiset(a) == multiset(b)
    ensures forall x :: x in a <==> x in b
  {
    assert forall x :: x in a <==> x in multiset(a);
  }

  lemma DistinctMultiset<T>(a: seq<T>, b: seq<T>)
    requires multiset(a) == multiset(b) && Distinct(a)
    ensures Distinct(b)
  {
    SameMembers(a, b);
    assert Elements(a) == Elements(b);
    DistinctSize(a);
    assert |multiset(a)| == |a| && |multiset(b)| == |b|;
    SizeDistinct(b);
  }

  lemma {:induction false} SizeDistinct<T>(s: seq<T>)
    requires |Elements(s)| == |s|
    ensures Distinct(s)
  {
    if s != [] {
      var rest := s[1..];
      assert Elements(s) == Elements(rest) + {s[0]};
      ElementsSize(rest);
      SizeDistinct(rest);
      assert s[0] !in Elements(rest);
      forall i, j | 0 <= i < j < |s| ensures s[i] != s[j] {
        assert s[j] == rest[j - 1] && s[j] in Elements(rest);
      }
    }
  }

  lemma OneAnswer(os: seq<Outcome>, a: Outcome, b: Outcome)
    requires Distinct(DomainsOf(os)) && a in os && b in os && a.domain == b.domain
    ensures a == b
  {
    var i :| 0 <= i < |os| && os[i] == a;
    var j :| 0 <= j < |os| && os[j] == b;
    assert DomainsOf(os)[i] == DomainsOf(os)[j];
  }
}
