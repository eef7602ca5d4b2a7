/** Workers that share one cursor over the cases of a corpus (scripts/github-qualification.ts). */
module WorkerPool {
  import opened Text

  datatype Status = ReadyToMerge | Pending | Blocked | Stale

  datatype Evidence = Evidence(status: Status, head: Option<string>)

  datatype Seed = Seed(repository: string, number: nat, headSha: Option<string>)

  datatype Outcome = Outcome(seed: Seed, requests: nat, evidence: Evidence, seedHeadChanged: bool)

  /** A worker runs without a break from one await to the next: it is at its start, at an await, or at an end. */
  datatype Worker = Begun | Collecting(index: nat) | Returned | Failed(index: nat)

  /** What the scheduler does next: a worker starts, or the collection it awaits is done or rejected. */
  datatype Event = Start(w: nat) | Collected(w: nat, evidence: Evidence, requests: nat) | Rejected(w: nat)

  function OutcomeOf(seed: Seed, evidence: Evidence, requests: nat): Outcome {
    Outcome(seed, requests, evidence,
            seed.headSha.Some? && evidence.head.Some? && seed.headSha.value != evidence.head.value)
  }

  /** The result of the collection for this case, which tells whether a head other than the listed one was read. */
  ghost predicate Reports(o: Outcome, seed: Seed, evidence: Evidence, requests: nat) {
    && o.seed == seed && o.evidence == evidence && o.requests == requests
    && (o.seedHeadChanged <==>
          exists listed, read :: seed.headSha == Some(listed) && evidence.head == Some(read) && listed != read)
  }

  lemma OutcomeReports(seed: Seed, evidence: Evidence, requests: nat)
    ensures Reports(OutcomeOf(seed, evidence, requests), seed, evidence, requests)
  {
    assert seed.headSha.Some? ==> seed.headSha == Some(seed.headSha.value);
    assert evidence.head.Some? ==> evidence.head == Some(evidence.head.value);
  }

  /** One of the first n events is the collection with this result. */
  ghost predicate Collects(events: seq<Event>, n: nat, seed: Seed, o: Outcome) {
    exists k :: 0 <= k < n && k < |events| && events[k].Collected?
                && Reports(o, seed, events[k].evidence, events[k].requests)
  }

  ghost predicate ResultsFrom(events: seq<Event>, n: nat, cases: seq<Seed>, before: seq<Option<Outcome>>,
                              after: seq<Option<Outcome>>) {
    |before| == |after| == |cases|
    && forall i :: 0 <= i < |cases| && after[i] != before[i] ==>
         before[i].None? && after[i].Some? && Collects(events, n, cases[i], after[i].value)
  }

  /** One more event that at most sets one empty slot. */
  lemma ResultsNext(events: seq<Event>, n: nat, cases: seq<Seed>, before: seq<Option<Outcome>>,
                    now: seq<Option<Outcome>>, after: seq<Option<Outcome>>, i: nat)
    requires n < |events| && ResultsFrom(events, n, cases, before, now)
    requires after == now
          || (i < |cases| && now[i].None? && events[n].Collected?
              && exists o :: after == now[i := Some(o)] && Reports(o, cases[i], events[n].evidence, events[n].requests))
    ensures ResultsFrom(events, n + 1, cases, before, after)
  {
    forall j | 0 <= j < |cases| && after[j] != before[j]
      ensures before[j].None? && after[j].Some? && Collects(events, n + 1, cases[j], after[j].value)
    {
      if after[j] == now[j] {
        assert Collects(events, n, cases[j], after[j].value);
      }
    }
  }

  predicate Holding(w: Worker) {
    w.Collecting? || w.Failed?
  }

  predicate Holds(w: Worker, i: nat) {
    Holding(w) && w.index == i
  }

  predicate Held(workers: seq<Worker>, i: nat) {
    exists w :: 0 <= w < |workers| && Holds(workers[w], i)
  }

  predicate AllReturned(workers: seq<Worker>) {
    forall w :: 0 <= w < |workers| ==> workers[w].Returned?
  }

  predicate NoRepeats(s: seq<nat>) {
    forall j, k :: 0 <= j < k < |s| ==> s[j] != s[k]
  }

  /** The cases that were claimed are those below the cursor, in order, so each of them once. */
  predicate ClaimsFit(claims: seq<nat>, cursor: nat, n: nat) {
    |claims| == (if cursor < n then cursor else n) && forall k :: 0 <= k < |claims| ==> claims[k] == k
  }

  /** No two workers hold one case. */
  predicate Apart(a: Worker, b: Worker) {
    Holding(a) && Holding(b) ==> a.index != b.index
  }

  predicate WorkersFit(workers: seq<Worker>, cursor: nat, results: seq<Option<Outcome>>) {
    && (forall w :: 0 <= w < |workers| && Holding(workers[w]) ==>
          workers[w].index < |results| && workers[w].index < cursor && results[workers[w].index].None?)
    && (forall v, w :: 0 <= v < w < |workers| ==> Apart(workers[v], workers[w]))
    && (forall w :: 0 <= w < |workers| && workers[w].Returned? ==> cursor > |results|)
  }

  predicate ResultsFit(cases: seq<Seed>, workers: seq<Worker>, cursor: nat, results: seq<Option<Outcome>>,
                       writes: seq<nat>)
  {
    && |results| == |cases|
    && NoRepeats(writes)
    && (forall i :: 0 <= i < |results| ==> (results[i].Some? <==> i in writes))
    && (forall i :: 0 <= i < |results| && results[i].Some? ==> i < cursor && results[i].value.seed == cases[i])
    && (forall i :: 0 <= i < |results| && i < cursor && results[i].None? ==> Held(workers, i))
  }

  predicate Valid(cases: seq<Seed>, workers: seq<Worker>, cursor: nat, results: seq<Option<Outcome>>,
                  claims: seq<nat>, writes: seq<nat>) {
    && ClaimsFit(claims, cursor, |cases|)
    && WorkersFit(workers, cursor, results)
    && ResultsFit(cases, workers, cursor, results, writes)
  }

  /** When every worker has returned, every case has its own result, set once. */
  lemma AllDone(cases: seq<Seed>, workers: seq<Worker>, cursor: nat, results: seq<Option<Outcome>>,
                claims: seq<nat>, writes: seq<nat>)
    requires Valid(cases, workers, cursor, results, claims, writes)
    requires AllReturned(workers) && (workers == [] ==> cases == [])
    ensures |results| == |cases|
    ensures forall i :: 0 <= i < |cases| ==>
              results[i].Some? && results[i].value.seed == cases[i] && i in writes && i in claims
    ensures NoRepeats(writes) && NoRepeats(claims)
  {
    forall i | 0 <= i < |cases|
      ensures results[i].Some? && i in claims
    {
      assert workers[0].Returned?;
      assert !Held(workers, i);
      assert claims[i] == i;
    }
  }

  lemma HeldElsewhere(workers: seq<Worker>, w: nat, worker: Worker, i: nat)
    requires w < |workers| && Held(workers, i) && !Holds(workers[w], i)
    ensures Held(workers[w := worker], i)
  {
    var v :| 0 <= v < |workers| && Holds(workers[v], i);
    assert workers[w := worker][v] == workers[v];
  }

  /** The next case goes to the worker, if there is one. */
  lemma ClaimValid(cases: seq<Seed>, workers: seq<Worker>, cursor: nat, results: seq<Option<Outcome>>,
                   claims: seq<nat>, writes: seq<nat>, w: nat)
    requires Valid(cases, workers, cursor, results, claims, writes) && w < |workers| && workers[w].Begun?
    ensures cursor >= |cases| ==> Valid(cases, workers[w := Returned], cursor + 1, results, claims, writes)
    ensures cursor < |cases| ==>
              Valid(cases, workers[w := Collecting(cursor)], cursor + 1, results, claims + [cursor], writes)
  {
    var next := workers[w := if cursor >= |cases| then Returned else Collecting(cursor)];
    assert next[w] == if cursor >= |cases| then Returned else Collecting(cursor);
    forall i | 0 <= i < |results| && i < cursor + 1 && results[i].None?
      ensures Held(next, i)
    {
      if i < cursor {
        HeldElsewhere(workers, w, next[w], i);
      } else {
        assert Holds(next[w], i);
      }
    }
  }

  /** The worker's result is stored in the slot of its case; then the worker holds nothing. */
  lemma StoreValid(cases: seq<Seed>, workers: seq<Worker>, cursor: nat, results: seq<Option<Outcome>>,
                   claims: seq<nat>, writes: seq<nat>, w: nat, o: Outcome)
    requires Valid(cases, workers, cursor, results, claims, writes) && w < |workers| && workers[w].Collecting?
    requires workers[w].index < |cases| && o.seed == cases[workers[w].index]
    ensures var i := workers[w].index;
            Valid(cases, workers[w := Begun], cursor, results[i := Some(o)], claims, writes + [i])
  {
    var index := workers[w].index;
    var next := results[index := Some(o)];
    assert results[index].None?;
    forall i | 0 <= i < |next| && i < cursor && next[i].None?
      ensures Held(workers[w := Begun], i)
    {
      HeldElsewhere(workers, w, Begun, i);
    }
  }

  lemma FailValid(cases: seq<Seed>, workers: seq<Worker>, cursor: nat, results: seq<Option<Outcome>>,
                  claims: seq<nat>, writes: seq<nat>, w: nat)
    requires Valid(cases, workers, cursor, results, claims, writes) && w < |workers| && workers[w].Collecting?
    ensures Valid(cases, workers[w := Failed(workers[w].index)], cursor, results, claims, writes)
  {
    var next := workers[w := Failed(workers[w].index)];
    forall i | 0 <= i < |results| && i < cursor && results[i].None?
      ensures Held(next, i)
    {
      if Holds(workers[w], i) {
        assert Holds(next[w], i);
      } else {
        HeldElsewhere(workers, w, next[w], i);
      }
    }
  }

  /** What an event does to the worker it is about: it claims the next case, comes to its end, or goes on as it was. */
  predicate Moves(e: Event, before: seq<Worker>, after: seq<Worker>, cursor: nat, next: nat, n: nat)
    requires e.w < |before|
  {
    var claims :=
      match e
      case Start(w) => before[w].Begun?
      case Collected(w, _, _) => before[w].Collecting?
      case Rejected(_) => false;
    if claims then
      next == cursor + 1 && after == before[e.w := if cursor < n then Collecting(cursor) else Returned]
    else
      && next == cursor
      && after == if e.Rejected? && before[e.w].Collecting? then before[e.w := Failed(before[e.w].index)] else before
  }

  /** The shared variables and the workers; `claims` and `writes` record the order of claims and of stored results. */
  class Pool {
    const cases: seq<Seed>
    const results: array<Option<Outcome>>
    var cursor: nat
    var workers: seq<Worker>
    ghost var claims: seq<nat>
    ghost var writes: seq<nat>

    /** Two workers, or one for a single case and none for no case. */
    constructor (cases: seq<Seed>)
      ensures this.cases == cases && fresh(results) && cursor == 0
      ensures results.Length == |cases| && forall i :: 0 <= i < |cases| ==> results[i].None?
      ensures Valid(this.cases, workers, cursor, results[..], claims, writes)
      ensures |workers| == (if |cases| < 2 then |cases| else 2)
    {
      this.cases := cases;
      results := new Option<Outcome>[|cases|](_ => None);
      cursor, claims, writes := 0, [], [];
      workers := seq(if |cases| < 2 then |cases| else 2, _ => Begun);
    }

    /** `const index = cursor++; if (index >= cases.length) return;` */
    method Claim(w: nat)
      requires Valid(cases, workers, cursor, results[..], claims, writes)
      requires w < |workers| && workers[w].Begun?
      modifies this`cursor, this`workers, this`claims
      ensures Valid(cases, workers, cursor, results[..], claims, writes)
      ensures cursor == old(cursor) + 1
      ensures workers == old(workers)[w := if old(cursor) >= |cases| then Returned else Collecting(old(cursor))]
    {
      ClaimValid(cases, workers, cursor, results[..], claims, writes, w);
      var index := cursor;
      cursor := cursor + 1;
      if index >= |cases| {
        workers := workers[w := Returned];
      } else {
        workers := workers[w := Collecting(index)];
        claims := claims + [index];
      }
    }

    method Store(w: nat, evidence: Evidence, requests: nat)
      requires Valid(cases, workers, cursor, results[..], claims, writes)
      requires w < |workers| && workers[w].Collecting?
      modifies this`workers, this`writes, results
      ensures Valid(cases, workers, cursor, results[..], claims, writes)
      ensures workers == old(workers)[w := Begun]
      ensures var i := old(workers)[w].index;
              && i < |cases| == results.Length
              && old(results[i]).None?
              && exists o :: results[..] == old(results[..])[i := Some(o)] && Reports(o, cases[i], evidence, requests)
    {
      var index := workers[w].index;
      var o := OutcomeOf(cases[index], evidence, requests);
      OutcomeReports(cases[index], evidence, requests);
      StoreValid(cases, workers, cursor, results[..], claims, writes, w, o);
      results[index] := Some(o);
      workers := workers[w := Begun];
      writes := writes + [index];
    }

    /** One worker runs on: from its start, or from its await to the next one. */
    method Advance(e: Event)
      requires Valid(cases, workers, cursor, results[..], claims, writes)
      modifies this`cursor, this`workers, this`claims, this`writes, results
      ensures Valid(cases, workers, cursor, results[..], claims, writes)
      ensures |workers| == |old(workers)| && results.Length == |cases|
      ensures e.w >= |workers| ==> workers == old(workers) && cursor == old(cursor)
      ensures e.w < |workers| ==> Moves(e, old(workers), workers, old(cursor), cursor, |cases|)
      ensures !(e.Collected? && e.w < |workers| && old(workers)[e.w].Collecting?) ==> results[..] == old(results[..])
      ensures e.Collected? && e.w < |workers| && old(workers)[e.w].Collecting? ==>
                var i := old(workers)[e.w].index;
                && i < |cases| && old(results[i]).None?
                && exists o ::
                     results[..] == old(results[..])[i := Some(o)] && Reports(o, cases[i], e.evidence, e.requests)
    {
      match e
      case Start(w) =>
        if w < |workers| && workers[w].Begun? {
          Claim(w);
        }
      case Collected(w, evidence, requests) =>
        if w < |workers| && workers[w].Collecting? {
          Store(w, evidence, requests);
          Claim(w);
        }
      case Rejected(w) =>
        if w < |workers| && workers[w].Collecting? {
          FailValid(cases, workers, cursor, results[..], claims, writes, w);
          workers := workers[w := Failed(workers[w].index)];
        }
    }

    /**
     * Any interleaving of the workers. Every case is claimed at most once; and when all workers have returned, every
     * case was claimed, and its slot holds a result for that very case that was stored once.
     */
    method Run(events: seq<Event>) returns (done: bool)
      requires Valid(cases, workers, cursor, results[..], claims, writes)
      requires workers == [] ==> cases == []
      modifies this`cursor, this`workers, this`claims, this`writes, results
      ensures Valid(cases, workers, cursor, results[..], claims, writes) && NoRepeats(claims) && NoRepeats(writes)
      ensures done <==> AllReturned(workers)
      ensures done ==> results.Length == |cases|
      ensures done ==> forall i :: 0 <= i < |cases| ==>
                results[i].Some? && results[i].value.seed == cases[i] && i in claims && i in writes
      ensures ResultsFrom(events, |events|, cases, old(results[..]), results[..])
    {
      for k := 0 to |events|
        invariant Valid(cases, workers, cursor, results[..], claims, writes)
        invariant ResultsFrom(events, k, cases, old(results[..]), results[..])
        invariant workers == [] ==> cases == []
      {
        ghost var now, held := results[..], workers;
        Advance(events[k]);
        ResultsNext(events, k, cases, old(results[..]), now, results[..],
                    if events[k].w < |held| && held[events[k].w].Collecting? then held[events[k].w].index else 0);
      }
      done := AllReturned(workers);
      if done {
        AllDone(cases, workers, cursor, results[..], claims, writes);
      }
    }
  }

  // ----- the summary -----

  function Having(results: seq<Outcome>, status: Status): seq<Outcome> {
    if results == [] then []
    else (if results[0].evidence.status == status then [results[0]] else []) + Having(results[1..], status)
  }

  /** The four counts of the summary account for every case. */
  lemma {:induction false} StatusesSum(results: seq<Outcome>)
    ensures |Having(results, ReadyToMerge)| + |Having(results, Pending)| + |Having(results, Blocked)|
          + |Having(results, Stale)| == |results|
  {
    if results != [] {
      StatusesSum(results[1..]);
    }
  }
}
