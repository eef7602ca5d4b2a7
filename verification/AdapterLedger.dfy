/**
 * The operation ledger of the coding adapter (scripts/coding-recovery-demo.ts): any number of invocations that
 * interleave at their file operations, each of which may be killed at any of them.
 */
module AdapterLedger {
  import opened Text
  import Seqs

  datatype Action = Launch | Observe

  /**
   * `authorized` says whether action and authority are the adapter's own, `sourceMatches` whether the workspace and
   * its head are.
   */
  datatype Request = Request(action: Action, binding: string, authorized: bool, sourceMatches: bool)

  /** Everything in the terminal record but its binding is constant or computed from the binding. */
  datatype Outcome = Outcome(binding: string)

  datatype Reply = Unknown(binding: string) | Terminal(outcome: Outcome) | Error

  /** The next file operation of an invocation, or the reply it is about to print or has printed. */
  datatype Point =
    | Reading
    | Locking
    | WritingBinding
    | WritingLaunches
    | Repairing
    | WritingTerminal
    | WritingReady
    | Answering(reply: Reply)
    | Answered(reply: Reply)

  /** `readAt` is the moment the invocation looked for the terminal record. */
  datatype Invocation = Invocation(request: Request, point: Point, alive: bool, readAt: Option<nat>)

  /** The ledger directory, the workspace, the invocations and what they printed. `clock` counts the events. */
  datatype State = State(invocations: seq<Invocation>, admitted: Option<nat>, binding: Option<string>,
                         launches: Option<nat>, repairs: nat, terminal: Option<Outcome>, ready: Option<nat>,
                         replies: seq<(nat, Reply)>, clock: nat, settledAt: Option<nat>)

  const EMPTY := State([], None, None, None, 0, None, None, [], 0, None)

  datatype Event = Spawn(request: Request) | Advance(p: nat) | Kill(p: nat)

  function Begun(r: Request): Invocation {
    Invocation(r, if r.authorized then Reading else Answering(Error), true, None)
  }

  /** After the look at the terminal record: `parseCodingOperationOutcome` refuses one with another binding. */
  function AfterRead(r: Request, terminal: Option<Outcome>): Point {
    match terminal
    case Some(o) => Answering(if o.binding == r.binding then Terminal(o) else Error)
    case None =>
      if r.action.Observe? then Answering(Unknown(r.binding))
      else if !r.sourceMatches then Answering(Error)
      else Locking
  }

  function At(s: State, p: nat, point: Point): State
    requires p < |s.invocations|
  {
    s.(invocations := s.invocations[p := s.invocations[p].(point := point)])
  }

  /** One file operation, or the print, of a live invocation. */
  function Operate(s: State, p: nat): State
    requires p < |s.invocations|
  {
    var i := s.invocations[p];
    match i.point
    case Reading =>
      s.(invocations := s.invocations[p := i.(point := AfterRead(i.request, s.terminal), readAt := Some(s.clock))])
    case Locking =>
      if s.admitted.Some? then At(s, p, Answering(Unknown(i.request.binding)))
      else At(s.(admitted := Some(p)), p, WritingBinding)
    case WritingBinding => At(s.(binding := Some(i.request.binding)), p, WritingLaunches)
    case WritingLaunches => At(s.(launches := Some(1)), p, Repairing)
    case Repairing => At(s.(repairs := s.repairs + 1), p, WritingTerminal)
    case WritingTerminal =>
      At(s.(terminal := Some(Outcome(i.request.binding)), settledAt := Some(s.clock)), p, WritingReady)
    case WritingReady => At(s.(ready := Some(p)), p, Answering(Terminal(Outcome(i.request.binding))))
    case Answering(reply) => At(s.(replies := s.replies + [(p, reply)]), p, Answered(reply))
    case Answered(_) => s
  }

  function Next(s: State, e: Event): State {
    var t :=
      match e
      case Spawn(request) => s.(invocations := s.invocations + [Begun(request)])
      case Advance(p) => if p < |s.invocations| && s.invocations[p].alive then Operate(s, p) else s
      case Kill(p) =>
        if p < |s.invocations| then s.(invocations := s.invocations[p := s.invocations[p].(alive := false)]) else s;
    t.(clock := s.clock + 1)
  }

  function Run(s: State, events: seq<Event>): State
    decreases |events|
  {
    if events == [] then s else Run(Next(s, events[0]), events[1..])
  }

  // ----- the invariant -----

  /** How many of its writes the admitted invocation has done. */
  function Writes(p: Point): nat {
    match p
    case WritingBinding => 0
    case WritingLaunches => 1
    case Repairing => 2
    case WritingTerminal => 3
    case WritingReady => 4
    case _ => 5
  }

  predicate Holds(p: Point) {
    p.WritingBinding? || p.WritingLaunches? || p.Repairing? || p.WritingTerminal? || p.WritingReady?
  }

  /** The files are exactly what the writes of the one admitted invocation make them. */
  predicate FilesFit(s: State) {
    if s.admitted.None? then
      s.binding.None? && s.launches.None? && s.repairs == 0 && s.terminal.None? && s.ready.None? && s.settledAt.None?
    else
      && s.admitted.value < |s.invocations|
      && var i := s.invocations[s.admitted.value];
         var n := Writes(i.point);
         && i.request.action.Launch? && i.request.sourceMatches
         && !i.point.Reading? && !i.point.Locking?
         && s.binding == (if n >= 1 then Some(i.request.binding) else None)
         && s.launches == (if n >= 2 then Some(1) else None)
         && s.repairs == (if n >= 3 then 1 else 0)
         && s.terminal == (if n >= 4 then Some(Outcome(i.request.binding)) else None)
         && s.ready == (if n >= 5 then s.admitted else None)
         && s.settledAt.Some? == s.terminal.Some?
         && (s.settledAt.Some? ==> s.settledAt.value < s.clock)
  }

  /** The invocation looked before the terminal record was written. */
  predicate LookedEarly(s: State, i: Invocation) {
    i.readAt.Some? && (s.settledAt.None? || i.readAt.value < s.settledAt.value)
  }

  /** It looked when the record was there. */
  predicate LookedLate(s: State, i: Invocation) {
    i.readAt.Some? && s.settledAt.Some? && s.settledAt.value < i.readAt.value
  }

  /** When an invocation gives this reply. */
  predicate Justified(s: State, p: nat, i: Invocation, reply: Reply) {
    match reply
    case Unknown(binding) =>
      && binding == i.request.binding
      && i.request.authorized
      && LookedEarly(s, i)
      && (i.request.action.Observe? || i.request.sourceMatches)
      && s.admitted != Some(p)
    case Terminal(outcome) =>
      && s.terminal == Some(outcome)
      && outcome.binding == i.request.binding
      && i.request.authorized
      && (s.admitted == Some(p) || LookedLate(s, i))
    case Error =>
      && s.admitted != Some(p)
      && (|| !i.request.authorized
          || (LookedLate(s, i) && s.terminal.Some? && s.terminal.value.binding != i.request.binding)
          || (LookedEarly(s, i) && i.request.action.Launch? && !i.request.sourceMatches))
  }

  predicate Fine(s: State, p: nat, i: Invocation) {
    && (i.readAt.Some? ==> i.readAt.value < s.clock)
    && (i.point.Reading? ==> i.request.authorized)
    && (i.point.Locking? ==>
          i.request.authorized && i.request.action.Launch? && i.request.sourceMatches && LookedEarly(s, i)
          && s.admitted != Some(p))
    && (Holds(i.point) ==> s.admitted == Some(p) && i.request.authorized)
    && (i.point.Answering? ==> Justified(s, p, i, i.point.reply))
    && (i.point.Answered? ==> Justified(s, p, i, i.point.reply))
  }

  predicate Printed(s: State, p: nat, reply: Reply) {
    p < |s.invocations| && s.invocations[p].point == Answered(reply)
  }

  predicate RepliesFit(s: State) {
    forall k :: 0 <= k < |s.replies| ==> Printed(s, s.replies[k].0, s.replies[k].1)
  }

  ghost predicate Valid(s: State) {
    && FilesFit(s)
    && RepliesFit(s)
    && forall p :: 0 <= p < |s.invocations| ==> Fine(s, p, s.invocations[p])
  }

  /** Nothing that was printed, and no terminal record, changes; and only ever one invocation is admitted. */
  predicate Evolves(s: State, t: State) {
    && (s.terminal.Some? ==> t.terminal == s.terminal && t.settledAt == s.settledAt)
    && (s.admitted.Some? ==> t.admitted == s.admitted)
    && s.replies <= t.replies
  }

  lemma ValidEmpty()
    ensures Valid(EMPTY)
  {
  }

  /** Other invocations keep their standing as long as the lock and the terminal record only come into being. */
  lemma FineKept(s: State, t: State, p: nat, i: Invocation)
    requires Fine(s, p, i) && s.clock <= t.clock
    requires t.admitted == s.admitted || (s.admitted.None? && t.admitted != Some(p))
    requires (t.terminal == s.terminal && t.settledAt == s.settledAt)
          || (s.terminal.None? && s.settledAt.None? && t.settledAt == Some(s.clock))
    ensures Fine(t, p, i)
  {
  }

  /** The writes of the admitted invocation. */
  lemma WriteFiles(s: State, p: nat)
    requires FilesFit(s) && p < |s.invocations| && Fine(s, p, s.invocations[p])
    requires Holds(s.invocations[p].point)
    ensures var t := Operate(s, p).(clock := s.clock + 1);
            FilesFit(t) && Evolves(s, t) && Fine(t, p, t.invocations[p])
  {
  }

  /** Looking, taking the lock and printing. */
  lemma LookFiles(s: State, p: nat)
    requires FilesFit(s) && p < |s.invocations| && Fine(s, p, s.invocations[p])
    requires !Holds(s.invocations[p].point)
    ensures var t := Operate(s, p).(clock := s.clock + 1);
            FilesFit(t) && Evolves(s, t) && Fine(t, p, t.invocations[p])
  {
  }

  lemma OperateFiles(s: State, p: nat)
    requires Valid(s) && p < |s.invocations|
    ensures var t := Operate(s, p).(clock := s.clock + 1);
            FilesFit(t) && Evolves(s, t) && Fine(t, p, t.invocations[p])
  {
    assert Fine(s, p, s.invocations[p]);
    if Holds(s.invocations[p].point) {
      WriteFiles(s, p);
    } else {
      LookFiles(s, p);
    }
  }

  lemma OperateFrame(s: State, p: nat)
    requires Valid(s) && p < |s.invocations|
    ensures var t := Operate(s, p);
            && |t.invocations| == |s.invocations|
            && (forall q :: 0 <= q < |s.invocations| && q != p ==> t.invocations[q] == s.invocations[q])
            && (t.admitted == s.admitted || (s.admitted.None? && t.admitted == Some(p)))
            && ((t.terminal == s.terminal && t.settledAt == s.settledAt)
                || (s.terminal.None? && s.settledAt.None? && t.settledAt == Some(s.clock)))
  {
    assert Fine(s, p, s.invocations[p]);
  }

  lemma OperateReplies(s: State, p: nat)
    requires Valid(s) && p < |s.invocations|
    ensures RepliesFit(Operate(s, p))
  {
    var t := Operate(s, p);
    forall k | 0 <= k < |t.replies|
      ensures Printed(t, t.replies[k].0, t.replies[k].1)
    {
      if k < |s.replies| {
        assert Printed(s, s.replies[k].0, s.replies[k].1);
      }
    }
  }

  lemma OperateValid(s: State, p: nat)
    requires Valid(s) && p < |s.invocations|
    ensures Valid(Operate(s, p).(clock := s.clock + 1)) && Evolves(s, Operate(s, p).(clock := s.clock + 1))
  {
    var t := Operate(s, p).(clock := s.clock + 1);
    OperateFiles(s, p);
    OperateFrame(s, p);
    OperateReplies(s, p);
    forall k | 0 <= k < |t.replies|
      ensures Printed(t, t.replies[k].0, t.replies[k].1)
    {
      assert Printed(Operate(s, p), t.replies[k].0, t.replies[k].1);
    }
    forall q | 0 <= q < |t.invocations|
      ensures Fine(t, q, t.invocations[q])
    {
      if q != p {
        assert Fine(s, q, s.invocations[q]);
        FineKept(s, t, q, s.invocations[q]);
      }
    }
  }

  predicate Operates(s: State, e: Event) {
    e.Advance? && e.p < |s.invocations| && s.invocations[e.p].alive
  }

  lemma NextOperates(s: State, e: Event)
    requires Operates(s, e)
    ensures Next(s, e) == Operate(s, e.p).(clock := s.clock + 1)
  {
  }

  /** Without an operation nothing but the list of invocations and the clock changes. */
  lemma NextIdle(s: State, e: Event)
    requires !Operates(s, e)
    ensures var t := Next(s, e);
            && t.(invocations := s.invocations, clock := s.clock) == s
            && t.clock == s.clock + 1
            && |s.invocations| <= |t.invocations|
            && (forall q :: 0 <= q < |s.invocations| ==>
                  t.invocations[q] == s.invocations[q] || t.invocations[q] == s.invocations[q].(alive := false))
            && (forall q :: |s.invocations| <= q < |t.invocations| ==> e.Spawn? && t.invocations[q] == Begun(e.request))
  {
  }

  lemma IdleValid(s: State, e: Event, t: State)
    requires Valid(s) && t == Next(s, e)
    requires !Operates(s, e)
    ensures Valid(t) && Evolves(s, t)
  {
    NextIdle(s, e);
    forall q | 0 <= q < |t.invocations|
      ensures Fine(t, q, t.invocations[q])
    {
      if q < |s.invocations| {
        assert Fine(s, q, s.invocations[q]);
        FineKept(s, t, q, s.invocations[q]);
      }
    }
    forall k | 0 <= k < |t.replies|
      ensures Printed(t, t.replies[k].0, t.replies[k].1)
    {
      assert Printed(s, s.replies[k].0, s.replies[k].1);
    }
  }

  lemma NextValid(s: State, e: Event)
    requires Valid(s)
    ensures Valid(Next(s, e)) && Evolves(s, Next(s, e))
  {
    if Operates(s, e) {
      OperateValid(s, e.p);
      NextOperates(s, e);
    } else {
      IdleValid(s, e, Next(s, e));
    }
  }

  /** Every state of every interleaving is valid, and what it established stays. */
  lemma {:induction false} RunValid(s: State, events: seq<Event>)
    requires Valid(s)
    ensures Valid(Run(s, events)) && Evolves(s, Run(s, events))
    decreases |events|
  {
    if events != [] {
      NextValid(s, events[0]);
      RunValid(Next(s, events[0]), events[1..]);
    }
  }

  // ----- what follows for every interleaving -----

  /** At most one invocation passes the lock, and the repair is written at most once, only by that invocation. */
  lemma AtMostOnce(events: seq<Event>)
    ensures var s := Run(EMPTY, events);
            && s.repairs <= 1
            && (s.repairs == 1 ==> s.admitted.Some?)
            && (s.terminal.Some? ==>
                  && s.repairs == 1
                  && s.admitted.Some? && s.admitted.value < |s.invocations|
                  && s.terminal == Some(Outcome(s.invocations[s.admitted.value].request.binding)))
  {
    ValidEmpty();
    RunValid(EMPTY, events);
  }

  /** From any point of any interleaving on, the lock and the terminal record stay as they are once they are there. */
  lemma TerminalNeverChanges(events: seq<Event>, later: seq<Event>)
    ensures Evolves(Run(EMPTY, events), Run(Run(EMPTY, events), later))
  {
    ValidEmpty();
    RunValid(EMPTY, events);
    RunValid(Run(EMPTY, events), later);
  }

  /**
   * Every reply is an error, unknown, or the one terminal outcome; and which of them is decided by when the invocation
   * looked. It is unknown exactly for one that looked before the terminal record was written and was not admitted.
   */
  lemma RepliesExact(events: seq<Event>, k: nat)
    requires k < |Run(EMPTY, events).replies|
    ensures var s := Run(EMPTY, events);
            var p, reply := s.replies[k].0, s.replies[k].1;
            && p < |s.invocations|
            && var i := s.invocations[p];
               && (reply.Unknown? <==>
                    && i.request.authorized
                    && LookedEarly(s, i)
                    && (i.request.action.Observe? || i.request.sourceMatches)
                    && s.admitted != Some(p))
               && (reply.Terminal? <==>
                    && i.request.authorized
                    && (|| s.admitted == Some(p)
                        || (LookedLate(s, i) && s.terminal == Some(Outcome(i.request.binding)))))
               && (reply.Terminal? ==> s.terminal == Some(reply.outcome))
  {
    ValidEmpty();
    RunValid(EMPTY, events);
    var s := Run(EMPTY, events);
    var p, reply := s.replies[k].0, s.replies[k].1;
    assert Printed(s, p, reply);
    assert Fine(s, p, s.invocations[p]);
    if s.terminal.Some? {
      assert s.terminal == Some(Outcome(s.terminal.value.binding));
    }
  }

  /** An observing invocation writes nothing. */
  lemma ObserveNeverWrites(events: seq<Event>, p: nat)
    requires p < |Run(EMPTY, events).invocations|
    requires Run(EMPTY, events).invocations[p].request.action.Observe?
    ensures var s := Run(EMPTY, events);
            var t := Next(s, Advance(p));
            t.(invocations := s.invocations, replies := s.replies, clock := s.clock) == s
  {
    ValidEmpty();
    RunValid(EMPTY, events);
    assert Fine(Run(EMPTY, events), p, Run(EMPTY, events).invocations[p]);
  }

  // ----- no way back to unknown -----

  /** Invocations from number `n` on looked no earlier than `moment`. */
  predicate LookFrom(s: State, n: nat, moment: nat) {
    && moment <= s.clock
    && n <= |s.invocations|
    && forall p :: n <= p < |s.invocations| && s.invocations[p].readAt.Some? ==>
         moment <= s.invocations[p].readAt.value
  }

  lemma NextLookFrom(s: State, e: Event, n: nat, moment: nat)
    requires LookFrom(s, n, moment)
    ensures LookFrom(Next(s, e), n, moment)
  {
    if !Operates(s, e) {
      NextIdle(s, e);
    }
  }

  lemma {:induction false} RunLookFrom(s: State, events: seq<Event>, n: nat, moment: nat)
    requires LookFrom(s, n, moment)
    ensures LookFrom(Run(s, events), n, moment)
    decreases |events|
  {
    if events != [] {
      NextLookFrom(s, events[0], n, moment);
      RunLookFrom(Next(s, events[0]), events[1..], n, moment);
    }
  }

  /** Once the terminal record is there, no invocation that begins afterwards ever replies unknown. */
  lemma NoUnknownAfterwards(events: seq<Event>, later: seq<Event>, k: nat)
    requires Run(EMPTY, events).terminal.Some?
    requires k < |Run(Run(EMPTY, events), later).replies|
    requires Run(Run(EMPTY, events), later).replies[k].0 >= |Run(EMPTY, events).invocations|
    ensures !Run(Run(EMPTY, events), later).replies[k].1.Unknown?
  {
    var s := Run(EMPTY, events);
    var t := Run(s, later);
    ValidEmpty();
    RunValid(EMPTY, events);
    RunValid(s, later);
    RunLookFrom(s, later, |s.invocations|, s.clock);
    var p, reply := t.replies[k].0, t.replies[k].1;
    assert Printed(t, p, reply);
    assert Fine(t, p, t.invocations[p]);
  }

  function Times(n: nat, e: Event): seq<Event> {
    if n == 0 then [] else [e] + Times(n - 1, e)
  }

  function Opening(binding: string): seq<Event> {
    [Spawn(Request(Observe, binding, true, true))]
    + ([Advance(0)] + ([Spawn(Request(Launch, binding, true, true))] + []))
  }

  /**
   * Only invocations that begin afterwards are safe: one that looked early may print unknown after another printed the
   * terminal outcome. Here 0 observes and looks, 1 launches and runs to its end, then 0 prints.
   */
  function StaleEvents(binding: string): seq<Event> {
    Opening(binding) + Times(8, Advance(1)) + [Advance(0)]
  }

  lemma RunOne(s: State, e: Event, rest: seq<Event>)
    ensures Run(s, [e] + rest) == Run(Next(s, e), rest)
  {
    assert ([e] + rest)[1..] == rest;
  }

  lemma {:induction false} RunAppend(s: State, a: seq<Event>, b: seq<Event>)
    ensures Run(s, a + b) == Run(Run(s, a), b)
    decreases |a|
  {
    if a == [] {
      assert a + b == b;
    } else {
      assert a + b == [a[0]] + (a[1..] + b);
      RunOne(s, a[0], a[1..] + b);
      RunAppend(Next(s, a[0]), a[1..], b);
    }
  }

  lemma {:induction false} TimesAdd(m: nat, n: nat, e: Event)
    ensures Times(m, e) + Times(n, e) == Times(m + n, e)
  {
    if m > 0 {
      TimesAdd(m - 1, n, e);
      Seqs.Assoc([e], Times(m - 1, e), Times(n, e));
    } else {
      Seqs.Empty(Times(n, e));
    }
  }

  /** The look, the lock, the binding and the launch count. */
  lemma LaunchLocks(s: State, p: nat)
    requires p < |s.invocations| && s.terminal.None? && s.admitted.None?
    requires s.invocations[p]
          == Invocation(Request(Launch, s.invocations[p].request.binding, true, true), Reading, true, None)
    ensures var t := Run(s, Times(4, Advance(p)));
            && t.replies == s.replies
            && |t.invocations| == |s.invocations|
            && t.invocations[p].request == s.invocations[p].request
            && t.invocations[p].point.Repairing? && t.invocations[p].alive
            && (forall q :: 0 <= q < |s.invocations| && q != p ==> t.invocations[q] == s.invocations[q])
  {
    var e := Advance(p);
    RunOne(s, e, Times(3, e));
    var s1 := Next(s, e);
    assert s1.invocations[p].point.Locking?;
    RunOne(s1, e, Times(2, e));
    var s2 := Next(s1, e);
    RunOne(s2, e, Times(1, e));
    var s3 := Next(s2, e);
    RunOne(s3, e, Times(0, e));
  }

  /** The repair, the terminal record, the readiness record and the print. */
  lemma LaunchWrites(s: State, p: nat)
    requires p < |s.invocations| && s.invocations[p].point.Repairing? && s.invocations[p].alive
    ensures var t := Run(s, Times(4, Advance(p)));
            && t.replies == s.replies + [(p, Terminal(Outcome(s.invocations[p].request.binding)))]
            && |t.invocations| == |s.invocations|
            && (forall q :: 0 <= q < |s.invocations| && q != p ==> t.invocations[q] == s.invocations[q])
  {
    var e := Advance(p);
    RunOne(s, e, Times(3, e));
    var s1 := Next(s, e);
    RunOne(s1, e, Times(2, e));
    var s2 := Next(s1, e);
    RunOne(s2, e, Times(1, e));
    var s3 := Next(s2, e);
    assert s3.invocations[p].point == Answering(Terminal(Outcome(s.invocations[p].request.binding)));
    RunOne(s3, e, Times(0, e));
  }

  /** A launch that runs on its own from the look to the print answers with its terminal outcome. */
  lemma LaunchAlone(s: State, p: nat)
    requires p < |s.invocations| && s.terminal.None? && s.admitted.None?
    requires s.invocations[p]
          == Invocation(Request(Launch, s.invocations[p].request.binding, true, true), Reading, true, None)
    ensures var t := Run(s, Times(8, Advance(p)));
            && t.replies == s.replies + [(p, Terminal(Outcome(s.invocations[p].request.binding)))]
            && |t.invocations| == |s.invocations|
            && (forall q :: 0 <= q < |s.invocations| && q != p ==> t.invocations[q] == s.invocations[q])
  {
    LaunchLocks(s, p);
    LaunchWrites(Run(s, Times(4, Advance(p))), p);
    RunAppend(s, Times(4, Advance(p)), Times(4, Advance(p)));
    TimesAdd(4, 4, Advance(p));
  }

  lemma Opened(binding: string)
    ensures var s := Run(EMPTY, Opening(binding));
            && |s.invocations| == 2
            && s.invocations[0].alive && s.invocations[0].point == Answering(Unknown(binding))
            && s.invocations[1] == Begun(Request(Launch, binding, true, true))
            && s.terminal.None? && s.admitted.None? && s.replies == []
  {
    var observe, launch := Request(Observe, binding, true, true), Request(Launch, binding, true, true);
    RunOne(EMPTY, Spawn(observe), [Advance(0)] + ([Spawn(launch)] + []));
    var s1 := Next(EMPTY, Spawn(observe));
    RunOne(s1, Advance(0), [Spawn(launch)] + []);
    RunOne(Next(s1, Advance(0)), Spawn(launch), []);
  }

  lemma PrintLast(t: State, binding: string)
    requires |t.invocations| > 0 && t.invocations[0].alive && t.invocations[0].point == Answering(Unknown(binding))
    ensures Run(t, [Advance(0)]).replies == t.replies + [(0, Unknown(binding))]
  {
    RunOne(t, Advance(0), []);
    assert [Advance(0)] + [] == [Advance(0)];
  }

  lemma StaleUnknown(binding: string)
    ensures Run(EMPTY, StaleEvents(binding)).replies == [(1, Terminal(Outcome(binding))), (0, Unknown(binding))]
  {
    RunAppend(EMPTY, Opening(binding) + Times(8, Advance(1)), [Advance(0)]);
    RunAppend(EMPTY, Opening(binding), Times(8, Advance(1)));
    Opened(binding);
    var s := Run(EMPTY, Opening(binding));
    LaunchAlone(s, 1);
    PrintLast(Run(s, Times(8, Advance(1))), binding);
  }
}
