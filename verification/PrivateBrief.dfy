/** The commands on one workflow root (`start` and `action` in scripts/apple_brief_demo.py). */
module PrivateBrief {
  import opened Text
  import opened Json
  import opened Evidence
  import opened BriefData

  // ----- the native VM -----

  /** Calls of the native binary. `Tick(true)` carries an executor, so it is the one that can run inference. */
  datatype VmCall =
    | Setup
    | Create
    | Check
    | Export
    | Verify
    | Send(key: string, decision: Decision)
    | Tick(infers: bool)

  datatype Answer = Failed | Done | Exported(capsule: Capsule)

  /**
   * A VM is any function from the calls made so far to the last answer. A history never repeats, so every behaviour
   * of a VM over the life of a root is such a function.
   */
  type Vm = seq<VmCall> -> Answer

  /** What the VM answers to the last of these calls. */
  function Ask(vm: Vm, calls: seq<VmCall>): Answer {
    vm(calls)
  }

  function Dispatches(calls: seq<VmCall>): nat {
    if calls == [] then 0
    else Dispatches(calls[..|calls| - 1]) + (if calls[|calls| - 1] == Tick(true) then 1 else 0)
  }

  lemma DispatchesAppend(calls: seq<VmCall>, c: VmCall)
    ensures Dispatches(calls + [c]) == Dispatches(calls) + (if c == Tick(true) then 1 else 0)
  {
    assert (calls + [c])[..|calls|] == calls;
  }

  // ----- what always holds -----

  predicate DecisionFits(host: Host, d: Definition, q: Qualification, decision: Decision) {
    && decision.workflow == d.workflow == q.workflow
    && decision.proposalId == q.proposalId
    && host.digest(decision.proposal) == q.proposalDigest
    && decision.proposal.workflow == d.workflow
    && decision.proposal.evidence == d.evidence
  }

  predicate DispatchesSafe(created: bool, files: Files, dispatches: nat) {
    && dispatches <= 1
    && (dispatches == 1 ==> files.started.Some?)
    && (!created ==> files == NO_FILES)
    && (files.started.Some? ==>
          && files.definition.Some?
          && files.started == Some(StartedOf(files.definition.value)))
    && (files.qualified.Some? ==>
          && files.started.Some?
          && dispatches == 1
          && files.qualified.value.workflow == files.definition.value.workflow)
  }

  predicate FilesSafe(host: Host, files: Files) {
    && (files.decision.Some? ==>
          && files.qualified.Some?
          && files.definition.Some?
          && DecisionFits(host, files.definition.value, files.qualified.value, files.decision.value))
    && (files.publication.Some? ==>
          && files.decision.Some?
          && files.decision.value.verdict.Approve?
          && files.decision.value.proposal == files.publication.value)
  }

  /**
   * At most one dispatch can run inference, and only once the started marker is there. A decision is there only for
   * the proposal and the delivery id that were qualified, a publication only with the approval of that proposal.
   */
  predicate Safe(host: Host, created: bool, files: Files, calls: seq<VmCall>) {
    DispatchesSafe(created, files, Dispatches(calls)) && FilesSafe(host, files)
  }

  predicate Stays<T(==)>(before: Option<T>, after: Option<T>) {
    before.Some? ==> after == before
  }

  /** No artifact changes or goes away. */
  predicate Kept(before: Files, after: Files) {
    && Stays(before.definition, after.definition)
    && Stays(before.started, after.started)
    && Stays(before.qualified, after.qualified)
    && Stays(before.decision, after.decision)
    && Stays(before.publication, after.publication)
  }

  // ----- an orderly VM -----

  datatype Sent = Sent(key: string, decision: Decision)

  /** The approvals mailbox, and the decision the process took from it. */
  datatype World = World(inbox: seq<Sent>, done: Option<Decision>)

  predicate HasKey(inbox: seq<Sent>, key: string) {
    exists i :: 0 <= i < |inbox| && inbox[i].key == key
  }

  /** A send with a key that was used changes nothing; a tick takes the first message, at most once. */
  function Apply(w: World, c: VmCall): World {
    match c
    case Send(key, decision) => if HasKey(w.inbox, key) then w else w.(inbox := w.inbox + [Sent(key, decision)])
    case Tick(false) => if w.done.None? && w.inbox != [] then w.(done := Some(w.inbox[0].decision)) else w
    case _ => w
  }

  function Play(calls: seq<VmCall>): World {
    if calls == [] then World([], None) else Apply(Play(calls[..|calls| - 1]), calls[|calls| - 1])
  }

  lemma PlayAppend(calls: seq<VmCall>, c: VmCall)
    ensures Play(calls + [c]) == Apply(Play(calls), c)
  {
    assert (calls + [c])[..|calls|] == calls;
  }

  /** One more call, and what it adds to the dispatches and to the world. */
  predicate Logged(before: seq<VmCall>, after: seq<VmCall>, c: VmCall) {
    && after == before + [c]
    && Dispatches(after) == Dispatches(before) + (if c == Tick(true) then 1 else 0)
    && Play(after) == Apply(Play(before), c)
  }

  lemma LoggedAppend(calls: seq<VmCall>, c: VmCall)
    ensures Logged(calls, calls + [c], c)
  {
    DispatchesAppend(calls, c);
    PlayAppend(calls, c);
  }

  /** A held draft: the definition, the capsule at the approval boundary, and the head after it was passed. */
  datatype Plan = Plan(d: Definition, held: Capsule, draft: Draft, next: string, verdict: Verdict) {
    function Decision(): Decision {
      BriefData.Decision(verdict, d.workflow, draft.proposalId, draft.proposal)
    }

    function Opposite(): Plan {
      this.(verdict := if verdict.Approve? then Deny else Approve)
    }
  }

  /** The receipt after the process took the decision: it publishes exactly when the decision approves. */
  function Settle(r: Receipt, decision: Decision): Receipt {
    r.(wait := Some(Decided(decision)), publish := decision.verdict.Approve?,
       authorize := if decision.verdict.Approve? then Some(decision.proposal) else None)
  }

  /** The capsule that shows this world: the held one, or the next generation once the decision was taken. */
  function Snapshot(held: Capsule, next: string, w: World): Capsule
    requires held.receipt.Some?
  {
    if w.done.None? then held
    else
      held.(head := next, status := Complete, generation := 2,
            receipt := Some(Settle(held.receipt.value, w.done.value)))
  }

  predicate Obeys(vm: Vm, held: Capsule, next: string, calls: seq<VmCall>, c: VmCall)
    requires held.receipt.Some?
  {
    Dispatches(calls) == 1 ==>
      Ask(vm, calls + [c]) == if c.Export? then Exported(Snapshot(held, next, Play(calls))) else Done
  }

  /** After the dispatch every call succeeds, and an export shows what the sends and ticks before it made. */
  ghost predicate Orderly(vm: Vm, held: Capsule, next: string) {
    held.receipt.Some? && forall calls, c :: Obeys(vm, held, next, calls, c)
  }

  /** The VM that answers every call as the world says; so the assumption that a VM is orderly can be met. */
  function OrderlyVm(held: Capsule, next: string): Vm
    requires held.receipt.Some?
  {
    (calls: seq<VmCall>) =>
      if calls == [] || !calls[|calls| - 1].Export? then Done
      else Exported(Snapshot(held, next, Play(calls[..|calls| - 1])))
  }

  lemma OrderlyVmIsOrderly(held: Capsule, next: string)
    requires held.receipt.Some?
    ensures Orderly(OrderlyVm(held, next), held, next)
  {
    forall calls, c
      ensures Obeys(OrderlyVm(held, next), held, next, calls, c)
    {
      assert (calls + [c])[..|calls|] == calls;
    }
  }

  function PlannedReport(plan: Plan, w: World): Report {
    Report(if w.done.Some? then plan.next else plan.held.head,
           if w.done.Some? then Complete else Suspended,
           if w.done.Some? then 2 else 1,
           Some(plan.draft), w.done.Some? && plan.verdict.Approve?, true)
  }

  /** How far the plan's decision has come: not yet written, written, sent, taken, published. */
  predicate Stage(plan: Plan, files: Files, w: World) {
    var sent := [Sent(plan.draft.proposalId, plan.Decision())];
    && (files.decision.None? ==> w.inbox == [])
    && (files.decision.Some? ==> files.decision == Some(plan.Decision()))
    && (w.inbox == [] || w.inbox == sent)
    && (w.done.Some? ==> w.inbox == sent && w.done == Some(plan.Decision()))
    && (files.publication.Some? ==>
          w.done.Some? && plan.verdict.Approve? && files.publication == Some(plan.draft.proposal))
  }

  /** Without a decision, the inspection of the held capsule reports the draft as qualified and not yet published. */
  predicate AtBoundary(host: Host, d: Definition, held: Capsule, draft: Draft, files: Files) {
    && held.receipt.Some?
    && held.receipt.value.wait.None?
    && !held.receipt.value.publish
    && Inspection(host, d, files.(decision := None, publication := None), held)
       == Some(Report(held.head, Suspended, 1, Some(draft), false, true))
  }

  predicate Undecided(host: Host, plan: Plan, files: Files) {
    AtBoundary(host, plan.d, plan.held, plan.draft, files)
  }

  predicate OnPlan(host: Host, plan: Plan, files: Files, calls: seq<VmCall>) {
    && Dispatches(calls) == 1
    && files.definition == Some(plan.d)
    && Undecided(host, plan, files)
    && Stage(plan, files, Play(calls))
  }

  /** The decision is retained, was delivered once and taken, and the proposal is published if it was approved. */
  predicate Settled(plan: Plan, files: Files, w: World) {
    && files.decision == Some(plan.Decision())
    && files.publication == (if plan.verdict.Approve? then Some(plan.draft.proposal) else None)
    && w == World([Sent(plan.draft.proposalId, plan.Decision())], Some(plan.Decision()))
  }

  lemma InspectionOnPlan(host: Host, plan: Plan, files: Files, w: World)
    requires Undecided(host, plan, files) && Stage(plan, files, w)
    ensures Inspection(host, plan.d, files, Snapshot(plan.held, plan.next, w)) == Some(PlannedReport(plan, w))
  {
    var bare := files.(decision := None, publication := None);
    var c := Snapshot(plan.held, plan.next, w);
    var r := plan.held.receipt.value;
    assert DraftOf(host, plan.d, bare, r, r.recommend.value) == Some(plan.draft);
    assert DraftOf(host, plan.d, files, c.receipt.value, r.recommend.value) == Some(plan.draft);
    assert Consistent(plan.d, files, c.receipt.value, plan.draft);
    assert QualificationHolds(plan.d, bare, plan.held, plan.draft);
    assert QualificationHolds(plan.d, files, c, plan.draft);
  }

  // ----- the commands -----

  const ACTION := "publish-local-report"

  datatype Command = Inspect | ExportEvidence | Decide(verdict: Verdict, proposalDigest: string, action: string)

  /**
   * What `start` is given or draws: the probe is the digest of a preflight record that passed its checks; the bridge's
   * binary is compared with its digest before the dispatch and again after it.
   */
  datatype Request = Request(mode: Mode, workflow: string, evidence: Json, bridge: string, probe: Option<string>,
                             sameBefore: bool, sameAfter: bool)

  function DefinitionOf(r: Request): Definition {
    Definition(r.mode, r.workflow, r.evidence, r.bridge, if r.mode.Apple? then r.probe else None)
  }

  /** The conditions under which the plan's command is passed on to the write of the decision. */
  predicate Asks(plan: Plan, command: Command) {
    command == Decide(plan.verdict, plan.draft.proposalDigest, "publish-local-report")
  }

  predicate Opposes(plan: Plan, command: Command) {
    command.Decide? && command.verdict != plan.verdict
  }

  /** What planned calls see of the root: it is on the plan, and the VM is orderly about it. */
  ghost predicate Planned(host: Host, vm: Vm, plan: Option<Plan>, files: Files, calls: seq<VmCall>) {
    plan.Some? ==> Orderly(vm, plan.value.held, plan.value.next) && OnPlan(host, plan.value, files, calls)
  }

  predicate SameRoot(before: Files, after: Files) {
    before.(decision := None, publication := None) == after.(decision := None, publication := None)
  }

  lemma StaysOnPlan(host: Host, plan: Plan, before: Files, calls: seq<VmCall>, after: Files, later: seq<VmCall>)
    requires OnPlan(host, plan, before, calls) && SameRoot(before, after)
    requires Dispatches(later) == Dispatches(calls) && Stage(plan, after, Play(later))
    ensures OnPlan(host, plan, after, later)
  {
  }

  lemma DecisionOnPlan(plan: Plan, files: Files, w: World)
    requires Stage(plan, files, w)
    ensures Stage(plan, files.(decision := Some(plan.Decision())), w)
  {
  }

  lemma SendOnPlan(plan: Plan, files: Files, w: World)
    requires Stage(plan, files, w) && files.decision.Some?
    ensures var after := Apply(w, Send(plan.draft.proposalId, plan.Decision()));
            && Stage(plan, files, after)
            && after.inbox == [Sent(plan.draft.proposalId, plan.Decision())]
            && after.done == w.done
  {
    var sent := [Sent(plan.draft.proposalId, plan.Decision())];
    if w.inbox == sent {
      assert w.inbox[0].key == plan.draft.proposalId;
    } else {
      assert !HasKey(w.inbox, plan.draft.proposalId);
      assert w.inbox + sent == sent;
    }
  }

  lemma TickOnPlan(plan: Plan, files: Files, w: World)
    requires Stage(plan, files, w)
    ensures var after := Apply(w, Tick(false));
            && Stage(plan, files, after)
            && after.inbox == w.inbox
            && (w.inbox != [] ==> after.done == Some(plan.Decision()))
  {
    if w.done.None? && w.inbox != [] {
      assert w.inbox[0] == Sent(plan.draft.proposalId, plan.Decision());
    }
  }

  lemma PublicationOnPlan(plan: Plan, files: Files, w: World)
    requires Stage(plan, files, w) && w.done.Some? && plan.verdict.Approve?
    ensures Stage(plan, files.(publication := Some(plan.draft.proposal)), w)
  {
  }

  lemma DecisionSafe(host: Host, created: bool, files: Files, calls: seq<VmCall>, decision: Decision)
    requires Safe(host, created, files, calls) && Stays(files.decision, Some(decision))
    requires files.definition.Some? && files.qualified.Some?
    requires DecisionFits(host, files.definition.value, files.qualified.value, decision)
    ensures Safe(host, created, files.(decision := Some(decision)), calls)
  {
  }

  lemma PublicationSafe(host: Host, created: bool, files: Files, calls: seq<VmCall>, proposal: Proposal)
    requires Safe(host, created, files, calls)
    requires files.decision.Some? && files.decision.value.verdict.Approve?
    requires files.decision.value.proposal == proposal
    ensures Safe(host, created, files.(publication := Some(proposal)), calls)
  {
  }

  /** The report is what inspection makes of the capsule that the last call exported. */
  predicate Told(host: Host, vm: Vm, d: Definition, files: Files, calls: seq<VmCall>, report: Report) {
    Ask(vm, calls).Exported? && Inspection(host, d, files, Ask(vm, calls).capsule) == Some(report)
  }

  /** What a root answers to an inspection that is not stopped. */
  function Answered(host: Host, vm: Vm, files: Files, calls: seq<VmCall>): Option<Report> {
    if files.definition.None? || !Ask(vm, calls + [Check]).Done? then None
    else if !Ask(vm, calls + [Check] + [Export]).Exported? then None
    else Inspection(host, files.definition.value, files, Ask(vm, calls + [Check] + [Export]).capsule)
  }

  /** One command of a history, and the step after which it is killed. */
  datatype Attempt = Begin(request: Request, stop: nat) | Run(command: Command, stop: nat)

  /** Once the plan's decision is retained every command is; until then all but the opposite one. */
  predicate Permitted(plan: Plan, files: Files, a: Attempt) {
    a.Run? && Opposes(plan, a.command) ==> files.decision.Some?
  }

  /** Not a command with the other verdict. */
  predicate Favours(verdict: Verdict, a: Attempt) {
    a.Run? && a.command.Decide? ==> a.command.verdict == verdict
  }

  lemma StillPermitted(plan: Plan, before: Files, after: Files, a: Attempt)
    requires Permitted(plan, before, a) && Kept(before, after)
    ensures Permitted(plan, after, a)
  {
  }

  lemma KeptTransitive(a: Files, b: Files, c: Files)
    requires Kept(a, b) && Kept(b, c)
    ensures Kept(a, c)
  {
  }

  /** The capsule lists the held generation as its only initial one, and no message was taken yet. */
  predicate Waiting(held: Capsule) {
    && held.receipt.Some?
    && held.receipt.value.wait.None?
    && Initial(held.records) == [Record(held.head, held.receiptId, 1, Suspended)]
  }

  /** After a successful start the root is held at the approval of its draft. */
  predicate HeldBy(host: Host, d: Definition, held: Capsule, draft: Draft, files: Files) {
    && files.definition == Some(d)
    && files.decision.None?
    && files.publication.None?
    && files.qualified == QualificationOf(d, draft, held.head, held.receiptId)
    && (Waiting(held) ==> AtBoundary(host, d, held, draft, files))
  }

  /** The calls of a successful start on a fresh root: up to the dispatch, and what looks at its outcome. */
  const PREPARED: seq<VmCall> := [] + [Setup] + [Create]
  const DISPATCHED := PREPARED + [Tick(true)]
  const FIRST := DISPATCHED + [Check] + [Export]

  lemma FirstPlayed()
    ensures Dispatches(DISPATCHED + [Check]) == 1 && Play(DISPATCHED + [Check]) == World([], None)
    ensures Dispatches(FIRST) == 1 && Play(FIRST) == World([], None)
  {
    LoggedAppend([], Setup);
    LoggedAppend([] + [Setup], Create);
    LoggedAppend(PREPARED, Tick(true));
    LoggedAppend(DISPATCHED, Check);
    LoggedAppend(DISPATCHED + [Check], Export);
  }

  lemma FirstExport(vm: Vm, held: Capsule, next: string)
    requires Orderly(vm, held, next)
    ensures Ask(vm, FIRST) == Exported(held)
  {
    FirstPlayed();
    assert Obeys(vm, held, next, DISPATCHED + [Check], Export);
  }

  /** A capsule at the approval of one draft, before anything is qualified. */
  predicate Qualifiable(host: Host, d: Definition, c: Capsule) {
    var seen := Inspection(host, d, NO_FILES.(definition := Some(d), started := Some(StartedOf(d))), c);
    && seen.Some?
    && seen.value.status.Suspended? && seen.value.generation == 1
    && seen.value.draft.Some? && !seen.value.publication
    && QualificationOf(d, seen.value.draft.value, c.head, c.receiptId).Some?
  }

  /** What the VM shows after the dispatch is such a capsule. */
  predicate LeadsTo(host: Host, vm: Vm, d: Definition) {
    && Ask(vm, DISPATCHED + [Check]).Done?
    && Ask(vm, FIRST).Exported?
    && Qualifiable(host, d, Ask(vm, FIRST).capsule)
  }

  /** Admitted evidence, a bridge that stays as it was probed, and a VM that carries the process to its approval. */
  predicate Favourable(host: Host, vm: Vm, r: Request) {
    && Fits(r.evidence)
    && (r.mode.Apple? ==> r.probe.Some? && r.sameBefore && r.sameAfter)
    && Ask(vm, [] + [Setup]).Done? && Ask(vm, PREPARED).Done?
    && Ask(vm, DISPATCHED).Done?
    && LeadsTo(host, vm, DefinitionOf(r))
  }

  /** So a successful start with an orderly VM puts the root on the plan of either verdict. */
  lemma StartedOnPlan(host: Host, vm: Vm, plan: Plan, files: Files)
    requires Orderly(vm, plan.held, plan.next) && Waiting(plan.held)
    requires HeldBy(host, plan.d, plan.held, plan.draft, files)
    ensures Planned(host, vm, Some(plan), files, FIRST)
  {
    FirstPlayed();
  }

  lemma StartHolds(host: Host, d: Definition, files: Files, c: Capsule, draft: Draft, q: Qualification)
    requires files == NO_FILES.(definition := Some(d), started := Some(StartedOf(d)))
    requires Inspection(host, d, files, c) == Some(Report(c.head, Suspended, 1, Some(draft), false, false))
    requires QualificationOf(d, draft, c.head, c.receiptId) == Some(q)
    ensures c.receipt.Some? && HeldBy(host, d, c, draft, files.(qualified := Some(q)))
  {
    var after := files.(qualified := Some(q));
    var r := c.receipt.value;
    assert DraftOf(host, d, after, r, r.recommend.value) == Some(draft);
    assert Consistent(d, files, r, draft) && Consistent(d, after, r, draft);
    assert after.(decision := None, publication := None) == after;
    if Waiting(c) {
      assert QualificationHolds(d, after, c, draft);
    }
  }

  // ----- a start that succeeds -----

  /** The process of a request, held at the approval of a draft with this analysis after one effect. */
  function HeldProcess(r: Request, analysis: Analysis, proposalId: string, head: string, receiptId: string): Capsule {
    var d := DefinitionOf(r);
    var effect := Effect("", Some(analysis), false, false, ExecutorOf(d));
    var proposal := Proposal(d.workflow, d.evidence, analysis);
    var receipt := Receipt(Some(analysis), "", [effect], Some(proposal), proposalId, None, false, None);
    Capsule(true, head, Suspended, 1, receiptId, Some(receipt), [Record(head, receiptId, 1, Suspended)])
  }

  lemma HeldQualifies(host: Host, r: Request, analysis: Analysis, proposalId: string, head: string, receiptId: string)
    requires r.mode.Apple? ==> r.probe.Some?
    requires host.bounded(analysis) && host.deliveryId(proposalId)
    ensures var held := HeldProcess(r, analysis, proposalId, head, receiptId);
            Waiting(held) && Qualifiable(host, DefinitionOf(r), held)
  {
    var held, d := HeldProcess(r, analysis, proposalId, head, receiptId), DefinitionOf(r);
    var effects := held.receipt.value.effects;
    assert effects[1..] == [] && Matching(effects, "") == [effects[0]];
    assert held.records[1..] == [];
    var files := NO_FILES.(definition := Some(d), started := Some(StartedOf(d)));
    assert DraftOf(host, d, files, held.receipt.value, analysis).Some?;
  }

  lemma FirstAnswers(held: Capsule, next: string)
    requires held.receipt.Some?
    ensures var vm := OrderlyVm(held, next);
            && Ask(vm, [] + [Setup]).Done? && Ask(vm, PREPARED).Done? && Ask(vm, DISPATCHED).Done?
            && Ask(vm, DISPATCHED + [Check]).Done? && Ask(vm, FIRST) == Exported(held)
  {
    OrderlyVmIsOrderly(held, next);
    FirstExport(OrderlyVm(held, next), held, next);
  }

  /** For every admitted request there is an orderly VM with which a start, run to its end, succeeds. */
  lemma StartCanSucceed(host: Host, r: Request, analysis: Analysis, proposalId: string, head: string, next: string,
                        receiptId: string)
    requires Fits(r.evidence) && (r.mode.Apple? ==> r.probe.Some? && r.sameBefore && r.sameAfter)
    requires host.bounded(analysis) && host.deliveryId(proposalId)
    ensures var held := HeldProcess(r, analysis, proposalId, head, receiptId);
            && Waiting(held)
            && Orderly(OrderlyVm(held, next), held, next)
            && Favourable(host, OrderlyVm(held, next), r)
  {
    var held := HeldProcess(r, analysis, proposalId, head, receiptId);
    HeldQualifies(host, r, analysis, proposalId, head, receiptId);
    OrderlyVmIsOrderly(held, next);
    FirstAnswers(held, next);
  }

  // ----- the root -----

  /** A directory with its artifacts, the VM store in it, and the calls made on that store. */
  class Root {
    const host: Host
    const vm: Vm
    var created: bool
    var files: Files
    var calls: seq<VmCall>
    /** The steps the running command still takes before it is killed. */
    var left: nat

    constructor (host: Host, vm: Vm)
      ensures this.host == host && this.vm == vm
      ensures !created && files == NO_FILES && calls == []
      ensures Safe(host, created, files, calls)
    {
      this.host, this.vm := host, vm;
      created, files, calls, left := false, NO_FILES, [], 0;
    }

    method Step() returns (alive: bool)
      modifies this`left
      ensures alive <==> old(left) > 0
      ensures left == if alive then old(left) - 1 else 0
    {
      alive := left > 0;
      if alive {
        left := left - 1;
      }
    }

    /** A killed command has no answer: for what it does next that is the same as a failed call. */
    method Call(c: VmCall) returns (answer: Answer)
      modifies this`left, this`calls
      ensures left == if old(left) > 0 then old(left) - 1 else 0
      ensures old(left) == 0 ==> calls == old(calls) && answer.Failed?
      ensures old(left) > 0 ==> Logged(old(calls), calls, c) && answer == Ask(vm, calls)
    {
      var alive := Step();
      if !alive {
        return Failed;
      }
      LoggedAppend(calls, c);
      calls := calls + [c];
      answer := Ask(vm, calls);
    }

    /** `definition(root)`: the fixed parts of the root are checked against the VM store. */
    method ReadDefinition(ghost plan: Option<Plan>) returns (d: Option<Definition>)
      requires Planned(host, vm, plan, files, calls)
      modifies this`left, this`calls
      ensures old(left) > 0 ==>
                calls == old(calls) + [Check] && d == if Ask(vm, calls).Done? then files.definition else None
      ensures old(left) == 0 ==> calls == old(calls) && d.None?
      ensures Dispatches(calls) == Dispatches(old(calls)) && Play(calls) == Play(old(calls))
      ensures left == if old(left) > 0 then old(left) - 1 else 0
      ensures plan.Some? && old(left) > 0 ==> d.Some?
    {
      var answer := Call(Check);
      if plan.Some? && old(left) > 0 {
        assert Obeys(vm, plan.value.held, plan.value.next, old(calls), Check);
      }
      d := if answer.Done? then files.definition else None;
    }

    /** `inspect(root, d)` */
    method ReadReport(d: Definition, ghost plan: Option<Plan>) returns (report: Option<Report>)
      requires Planned(host, vm, plan, files, calls) && files.definition == Some(d)
      modifies this`left, this`calls
      ensures report.Some? ==> Vouched(host, d, files, report.value) && calls == old(calls) + [VmCall.Export]
      ensures report.Some? ==> Told(host, vm, d, files, calls, report.value)
      ensures old(left) > 0 ==>
                && calls == old(calls) + [VmCall.Export]
                && report
                   == if Ask(vm, calls).Exported? then Inspection(host, d, files, Ask(vm, calls).capsule) else None
      ensures old(left) == 0 ==> calls == old(calls) && report.None?
      ensures Dispatches(calls) == Dispatches(old(calls)) && Play(calls) == Play(old(calls))
      ensures plan.Some? && report.Some? ==> report.value == PlannedReport(plan.value, Play(calls))
      ensures left == if old(left) > 0 then old(left) - 1 else 0
      ensures plan.Some? && old(left) > 0 ==> report.Some?
    {
      var answer := Call(Export);
      if plan.Some? && old(left) > 0 {
        assert Obeys(vm, plan.value.held, plan.value.next, old(calls), Export);
        InspectionOnPlan(host, plan.value, files, Play(old(calls)));
      }
      if !answer.Exported? {
        return None;
      }
      report := Inspection(host, d, files, answer.capsule);
      if report.Some? {
        InspectionVouches(host, d, files, answer.capsule);
      }
    }

    /** `write_json(root / "decision.json", decision)`: written once, and only ever read back as it was written. */
    method WriteDecision(decision: Decision) returns (ok: bool)
      modifies this`left, this`files
      ensures left <= old(left)
      ensures ok ==> Stays(old(files).decision, Some(decision)) && files == old(files).(decision := Some(decision))
      ensures !ok || old(left) == 0 ==> files == old(files)
      ensures old(left) > 0 && Stays(old(files).decision, Some(decision)) ==> ok && left >= old(left) - 1
    {
      if files.decision.Some? {
        return files.decision.value == decision;
      }
      ok := Step();
      if ok {
        files := files.(decision := Some(decision));
      }
    }

    method WritePublication(proposal: Proposal) returns (ok: bool)
      modifies this`left, this`files
      ensures left <= old(left)
      ensures ok ==> Stays(old(files).publication, Some(proposal))
      ensures ok ==> files == old(files).(publication := Some(proposal))
      ensures !ok || old(left) == 0 ==> files == old(files)
      ensures old(left) > 0 && Stays(old(files).publication, Some(proposal)) ==> ok && left >= old(left) - 1
    {
      if files.publication.Some? {
        return files.publication.value == proposal;
      }
      ok := Step();
      if ok {
        files := files.(publication := Some(proposal));
      }
    }

    /** The decision is delivered under the proposal's delivery id and the process takes it, without an executor. */
    method Deliver(d: Definition, decision: Decision, ghost plan: Option<Plan>) returns (ok: bool)
      requires Planned(host, vm, plan, files, calls)
      requires plan.Some? ==> decision == plan.value.Decision() && files.decision == Some(decision)
      modifies this`left, this`calls
      ensures left <= old(left) && Dispatches(calls) == Dispatches(old(calls))
      ensures ok ==> calls == old(calls) + [Send(decision.proposalId, decision)] + [Tick(false)]
      ensures Planned(host, vm, plan, files, calls)
      ensures plan.Some? && old(left) >= 2 ==>
                && ok
                && left == old(left) - 2
                && Play(calls) == World([Sent(decision.proposalId, decision)], Some(decision))
    {
      if plan.Some? {
        SendOnPlan(plan.value, files, Play(calls));
      }
      var answer := Call(Send(decision.proposalId, decision));
      label Sent:
      if plan.Some? {
        StaysOnPlan(host, plan.value, files, old(calls), files, calls);
        assert old(left) > 0 ==>
          Obeys(vm, plan.value.held, plan.value.next, old(calls), Send(decision.proposalId, decision));
        TickOnPlan(plan.value, files, Play(calls));
      }
      if !answer.Done? {
        return false;
      }
      answer := Call(Tick(false));
      if plan.Some? {
        StaysOnPlan(host, plan.value, files, old(calls), files, calls);
        assert old(left) > 1 ==> Obeys(vm, plan.value.held, plan.value.next, old@Sent(calls), Tick(false));
      }
      ok := answer.Done?;
    }

    /** From a held approval to the process's last generation. */
    method Resume(d: Definition, decision: Decision, ghost plan: Option<Plan>) returns (report: Option<Report>)
      requires Safe(host, created, files, calls)
      requires files.definition == Some(d) && files.qualified.Some?
      requires DecisionFits(host, d, files.qualified.value, decision)
      requires Planned(host, vm, plan, files, calls)
      requires plan.Some? ==> decision == plan.value.Decision()
      modifies this`left, this`calls, this`files
      ensures Safe(host, created, files, calls) && SameRoot(old(files), files) && Kept(old(files), files)
      ensures report.Some? ==>
                && Vouched(host, d, files, report.value)
                && report.value.publication == decision.verdict.Approve?
                && files.decision == Some(decision)
                && calls
                   == old(calls) + [Send(decision.proposalId, decision)] + [Tick(false)] + [Check] + [VmCall.Export]
      ensures report.Some? ==> Told(host, vm, d, files, calls, report.value)
      ensures left <= old(left) && (old(left) == 0 ==> files == old(files))
      ensures files.publication == old(files).publication
      ensures Dispatches(calls) == Dispatches(old(calls))
      ensures Planned(host, vm, plan, files, calls)
      ensures plan.Some? && report.Some? ==> report.value == PlannedReport(plan.value, Play(calls))
      ensures plan.Some? && old(left) >= 5 ==>
                && report.Some?
                && left >= old(left) - 5
                && Play(calls) == World([Sent(decision.proposalId, decision)], Some(decision))
    {
      report := None;
      var written := WriteDecision(decision);
      if !written {
        return;
      }
      DecisionSafe(host, created, old(files), calls, decision);
      if plan.Some? {
        DecisionOnPlan(plan.value, old(files), Play(calls));
        StaysOnPlan(host, plan.value, old(files), calls, files, calls);
      }
      var delivered := Deliver(d, decision, plan);
      if !delivered {
        return;
      }
      label Delivered:
      var again := ReadDefinition(plan);
      if plan.Some? {
        StaysOnPlan(host, plan.value, files, old@Delivered(calls), files, calls);
      }
      if again.None? {
        return;
      }
      label Read:
      var settled := ReadReport(d, plan);
      if plan.Some? {
        StaysOnPlan(host, plan.value, files, old@Read(calls), files, calls);
      }
      if settled.None? || !settled.value.status.Complete? || settled.value.generation != 2 {
        return;
      }
      if settled.value.publication == decision.verdict.Approve? {
        report := settled;
      }
    }

    /** `publication.json`, where the report says that the proposal was published. */
    method Project(d: Definition, settled: Report, ghost plan: Option<Plan>) returns (ok: bool)
      requires Safe(host, created, files, calls)
      requires files.definition == Some(d) && Vouched(host, d, files, settled)
      requires Planned(host, vm, plan, files, calls)
      requires plan.Some? ==> settled == PlannedReport(plan.value, Play(calls))
      modifies this`left, this`files
      ensures Safe(host, created, files, calls) && Kept(old(files), files)
      ensures ok && settled.publication ==> files == old(files).(publication := Some(settled.draft.value.proposal))
      ensures !ok || !settled.publication || old(left) == 0 ==> files == old(files)
      ensures left <= old(left)
      ensures Planned(host, vm, plan, files, calls)
      ensures plan.Some? && old(left) > 0 ==> ok && left >= old(left) - 1
    {
      ok := true;
      if settled.publication {
        var proposal := settled.draft.value.proposal;
        ok := WritePublication(proposal);
        if ok {
          PublicationSafe(host, created, old(files), calls, proposal);
          if plan.Some? {
            PublicationOnPlan(plan.value, old(files), Play(calls));
            StaysOnPlan(host, plan.value, old(files), calls, files, calls);
          }
        }
      }
    }

    /** The report of the last generation: a process that is there must have this decision, another one is resumed. */
    method Conclude(d: Definition, seen: Report, decision: Decision, ghost plan: Option<Plan>)
      returns (settled: Option<Report>)
      requires Safe(host, created, files, calls)
      requires files.definition == Some(d) && Vouched(host, d, files, seen) && seen.qualified
      requires Told(host, vm, d, files, calls, seen)
      requires seen.draft.Some? && decision.proposalId == seen.draft.value.proposalId
      requires decision.proposal == seen.draft.value.proposal && decision.workflow == d.workflow
      requires Planned(host, vm, plan, files, calls)
      requires plan.Some? ==> decision == plan.value.Decision() && seen == PlannedReport(plan.value, Play(calls))
      modifies this`left, this`calls, this`files
      ensures Safe(host, created, files, calls) && SameRoot(old(files), files) && Kept(old(files), files)
      ensures files.publication == old(files).publication
      ensures settled.Some? ==>
                && files.decision == Some(decision)
                && Vouched(host, d, files, settled.value)
                && Told(host, vm, d, files, calls, settled.value)
      ensures left <= old(left) && (old(left) == 0 ==> files == old(files))
      ensures Dispatches(calls) == Dispatches(old(calls))
      ensures Planned(host, vm, plan, files, calls)
      ensures plan.Some? && settled.Some? ==> settled.value == PlannedReport(plan.value, Play(calls))
      ensures plan.Some? && old(left) >= 5 ==>
                && settled.Some?
                && left >= old(left) - 5
                && Play(calls) == World([Sent(decision.proposalId, decision)], Some(decision))
    {
      if seen.status.Complete? {
        settled := if files.decision == Some(decision) then Some(seen) else None;
      } else {
        settled := Resume(d, decision, plan);
      }
    }

    /** The `approve` and `deny` branch of `action`, given the report of the first inspection. */
    method Settle(d: Definition, seen: Report, verdict: Verdict, ghost plan: Option<Plan>)
      returns (report: Option<Report>)
      requires Safe(host, created, files, calls)
      requires files.definition == Some(d) && Vouched(host, d, files, seen) && seen.qualified
      requires Told(host, vm, d, files, calls, seen)
      requires Planned(host, vm, plan, files, calls)
      requires plan.Some? ==> plan.value.verdict == verdict && seen == PlannedReport(plan.value, Play(calls))
      modifies this`left, this`calls, this`files
      ensures Safe(host, created, files, calls) && SameRoot(old(files), files) && Kept(old(files), files)
      ensures report.Some? ==>
                && files.decision == Some(Decision(verdict, d.workflow, seen.draft.value.proposalId,
                                                   seen.draft.value.proposal))
                && (report.value.publication ==>
                      verdict.Approve? && files.publication == Some(seen.draft.value.proposal))
      ensures report.Some? ==>
                Told(host, vm, d, files.(publication := old(files).publication), calls, report.value)
      ensures old(left) == 0 ==> files == old(files)
      ensures Dispatches(calls) == Dispatches(old(calls))
      ensures old(files).decision.Some? && old(files).decision.value.verdict != verdict ==>
                report.None? && files == old(files) && calls == old(calls)
      ensures Planned(host, vm, plan, files, calls)
      ensures plan.Some? && old(left) >= 6 ==>
                && report == Some(PlannedReport(plan.value, Play(calls)))
                && left >= old(left) - 6
                && Settled(plan.value, files, Play(calls))
    {
      report := None;
      var draft := seen.draft.value;
      var decision := Decision(verdict, d.workflow, draft.proposalId, draft.proposal);
      if files.decision.Some? && files.decision.value != decision {
        return;
      }
      var settled := Conclude(d, seen, decision, plan);
      if settled.None? {
        return;
      }
      var projected := Project(d, settled.value, plan);
      if projected {
        report := settled;
      }
    }

    /** The exported capsule is verified on its own by the native binary. */
    method Verified(seen: Report, ghost plan: Option<Plan>) returns (report: Option<Report>)
      requires Planned(host, vm, plan, files, calls)
      modifies this`left, this`calls
      ensures Dispatches(calls) == Dispatches(old(calls)) && Play(calls) == Play(old(calls))
      ensures report.Some? ==> report.value == seen && calls == old(calls) + [Verify] && Ask(vm, calls).Done?
      ensures old(left) > 0 && Ask(vm, old(calls) + [Verify]).Done? ==> report == Some(seen)
      ensures left == if old(left) > 0 then old(left) - 1 else 0
      ensures plan.Some? && old(left) > 0 ==> report == Some(seen)
      ensures Planned(host, vm, plan, files, calls)
    {
      var answer := Call(Verify);
      if plan.Some? && old(left) > 0 {
        assert Obeys(vm, plan.value.held, plan.value.next, old(calls), Verify);
      }
      if plan.Some? {
        StaysOnPlan(host, plan.value, files, old(calls), files, calls);
      }
      report := if answer.Done? then Some(seen) else None;
    }

    /** What a command does with the report of the first inspection. */
    method Carry(command: Command, d: Definition, seen: Report, ghost plan: Option<Plan>)
      returns (report: Option<Report>)
      requires Safe(host, created, files, calls)
      requires files.definition == Some(d) && Vouched(host, d, files, seen)
      requires Told(host, vm, d, files, calls, seen)
      requires Planned(host, vm, plan, files, calls)
      requires plan.Some? ==> seen == PlannedReport(plan.value, Play(calls))
      requires plan.Some? && Opposes(plan.value, command) ==> files.decision.Some?
      modifies this`left, this`calls, this`files
      ensures Safe(host, created, files, calls) && Kept(old(files), files)
      ensures Dispatches(calls) == Dispatches(old(calls))
      ensures command.Inspect? ==> report == Some(seen) && calls == old(calls) && left == old(left)
      ensures command.ExportEvidence? && report.Some? ==>
                report.value == seen && calls == old(calls) + [Verify] && Ask(vm, calls).Done?
      ensures command.ExportEvidence? && old(left) > 1 && Ask(vm, old(calls) + [Verify]).Done? ==>
                report == Some(seen) && left > 0
      ensures command.Decide? && report.Some? ==>
                Told(host, vm, d, files.(publication := old(files).publication), calls, report.value)
      ensures plan.Some? && command.ExportEvidence? && old(left) > 1 ==>
                report == Some(PlannedReport(plan.value, Play(calls))) && left > 0
      ensures !command.Decide? || old(left) == 0 ==> files == old(files)
      ensures command.Decide? && report.Some? ==>
                && command.action == "publish-local-report"
                && files.decision.Some?
                && files.decision.value.verdict == command.verdict
                && host.digest(files.decision.value.proposal) == command.proposalDigest
      ensures Planned(host, vm, plan, files, calls)
      ensures plan.Some? && Asks(plan.value, command) && old(left) >= 7 ==>
                && report == Some(PlannedReport(plan.value, Play(calls)))
                && left > 0
                && Settled(plan.value, files, Play(calls))
      ensures plan.Some? && Opposes(plan.value, command) ==>
                report.None? && files == old(files) && Play(calls) == Play(old(calls))
    {
      match command
      case Inspect =>
        report := Some(seen);
      case ExportEvidence =>
        report := Verified(seen, plan);
      case Decide(verdict, proposalDigest, action) =>
        report := None;
        if !seen.qualified || action != ACTION || proposalDigest != seen.draft.value.proposalDigest {
          return;
        }
        if seen.status.Unsettled? {
          return;
        }
        report := Settle(d, seen, verdict, if plan.Some? && Opposes(plan.value, command) then None else plan);
    }

    /** `definition(root)` and the first inspection, which every command begins with. */
    method Look(ghost plan: Option<Plan>) returns (seen: Option<Report>)
      requires Planned(host, vm, plan, files, calls)
      modifies this`left, this`calls
      ensures Dispatches(calls) == Dispatches(old(calls)) && Play(calls) == Play(old(calls))
      ensures Planned(host, vm, plan, files, calls)
      ensures seen.Some? ==> left == old(left) - 2
      ensures old(left) <= 2 ==> left == 0 || seen.None?
      ensures old(left) >= 2 ==> seen == Answered(host, vm, files, old(calls))
      ensures seen.Some? ==>
                && old(left) >= 2
                && files.definition.Some?
                && calls == old(calls) + [Check] + [VmCall.Export]
                && Vouched(host, files.definition.value, files, seen.value)
                && Told(host, vm, files.definition.value, files, calls, seen.value)
      ensures plan.Some? && seen.Some? ==> seen.value == PlannedReport(plan.value, Play(calls))
      ensures plan.Some? && old(left) >= 2 ==> seen.Some?
    {
      seen := None;
      var read := ReadDefinition(plan);
      if plan.Some? {
        StaysOnPlan(host, plan.value, files, old(calls), files, calls);
      }
      if read.None? {
        return;
      }
      label Read:
      seen := ReadReport(read.value, plan);
      if plan.Some? {
        StaysOnPlan(host, plan.value, files, old@Read(calls), files, calls);
      }
    }

    /**
     * `inspect`, `export`, `approve` or `deny`, killed after `stop` steps. An answer to a decision command means the
     * decision is retained. With an orderly VM, the plan's own command run to its end settles the plan, and once a
     * decision is retained the opposite command is refused and changes nothing.
     */
    method Act(command: Command, stop: nat, ghost plan: Option<Plan>) returns (report: Option<Report>)
      requires Safe(host, created, files, calls)
      requires Planned(host, vm, plan, files, calls) && (plan.Some? ==> created)
      requires plan.Some? && Opposes(plan.value, command) ==> files.decision.Some?
      modifies this`left, this`calls, this`files
      ensures Safe(host, created, files, calls) && Kept(old(files), files)
      ensures Dispatches(calls) == Dispatches(old(calls))
      ensures !created ==> report.None? && calls == old(calls)
      ensures created && command.Inspect? && stop >= 3 ==> report == Answered(host, vm, files, old(calls))
      ensures command.Inspect? && report.Some? ==> calls == old(calls) + [Check] + [VmCall.Export]
      ensures (created && command.ExportEvidence? && stop >= 4
               && Ask(vm, old(calls) + [Check] + [VmCall.Export] + [Verify]).Done?) ==>
                report == Answered(host, vm, files, old(calls))
      ensures command.ExportEvidence? && report.Some? ==>
                calls == old(calls) + [Check] + [VmCall.Export] + [Verify] && Ask(vm, calls).Done?
      ensures !command.Decide? && report.Some? ==> report == Answered(host, vm, files, old(calls))
      ensures command.Decide? && report.Some? ==>
                && files.definition.Some?
                && Told(host, vm, files.definition.value, files.(publication := old(files).publication), calls,
                        report.value)
      ensures plan.Some? && ((command.Inspect? && stop >= 3) || (command.ExportEvidence? && stop >= 4)) ==>
                report == Some(PlannedReport(plan.value, Play(calls)))
      ensures !command.Decide? || stop <= 2 ==> files == old(files)
      ensures command.Decide? && report.Some? ==>
                && command.action == "publish-local-report"
                && files.decision.Some?
                && files.decision.value.verdict == command.verdict
                && host.digest(files.decision.value.proposal) == command.proposalDigest
      ensures Planned(host, vm, plan, files, calls)
      ensures plan.Some? && Asks(plan.value, command) && stop >= 9 ==>
                report == Some(PlannedReport(plan.value, Play(calls))) && Settled(plan.value, files, Play(calls))
      ensures plan.Some? && Opposes(plan.value, command) ==>
                report.None? && files == old(files) && Play(calls) == Play(old(calls))
    {
      left, report := stop, None;
      if !created {
        return;
      }
      var seen := Look(plan);
      if seen.None? {
        return;
      }
      var answer := Carry(command, files.definition.value, seen.value, plan);
      var saved := Step();
      if saved {
        report := answer;
      }
    }

    /** Up to the started marker: nothing here can run inference. */
    method Prepare(r: Request) returns (ready: bool)
      requires created && files == NO_FILES && Dispatches(calls) == 0
      modifies this`left, this`calls, this`files
      ensures Dispatches(calls) == 0 && Safe(host, created, files, calls)
      ensures ready ==>
                && files == NO_FILES.(definition := Some(DefinitionOf(r)), started := Some(StartedOf(DefinitionOf(r))))
                && calls == old(calls) + [Setup] + [Create]
      ensures old(calls) == [] && old(left) >= 4 && Ask(vm, [] + [Setup]).Done? && Ask(vm, PREPARED).Done? ==>
                ready && left == old(left) - 4
    {
      ready := false;
      var answer := Call(Setup);
      if !answer.Done? {
        return;
      }
      var alive := Step();
      if !alive {
        return;
      }
      files := files.(definition := Some(DefinitionOf(r)));
      answer := Call(Create);
      if !answer.Done? {
        return;
      }
      ready := Step();
      if ready {
        files := files.(started := Some(StartedOf(DefinitionOf(r))));
      }
    }

    /** After the dispatch: the process must be held at the approval, and what it holds is qualified. */
    method Qualify(d: Definition) returns (report: Option<Report>, ghost held: Option<Capsule>)
      requires created && Dispatches(calls) == 1
      requires files == NO_FILES.(definition := Some(d), started := Some(StartedOf(d)))
      modifies this`left, this`calls, this`files
      ensures Safe(host, created, files, calls) && Kept(old(files), files) && Dispatches(calls) == 1
      ensures files.definition == Some(d)
      ensures report.Some? ==> calls == old(calls) + [Check] + [VmCall.Export]
      ensures report.Some? ==>
                && report.value.qualified
                && Told(host, vm, d, files.(qualified := None), calls, report.value.(qualified := false))
      ensures report.Some? ==>
                && held.Some? && held.value.receipt.Some?
                && Ask(vm, calls) == Exported(held.value)
                && report.value.draft.Some?
                && HeldBy(host, d, held.value, report.value.draft.value, files)
      ensures old(calls) == DISPATCHED && old(left) >= 4 && LeadsTo(host, vm, d) ==> report.Some?
    {
      report, held := None, None;
      var read := ReadDefinition(None);
      if read.None? {
        return;
      }
      var answer := Call(VmCall.Export);
      if !answer.Exported? {
        return;
      }
      var c := answer.capsule;
      var seen := Inspection(host, d, files, c);
      if seen.None? || !seen.value.status.Suspended? || seen.value.generation != 1 {
        return;
      }
      if seen.value.draft.None? || seen.value.publication {
        return;
      }
      InspectionVouches(host, d, files, c);
      var draft := seen.value.draft.value;
      var qualified := QualificationOf(d, draft, c.head, c.receiptId);
      if qualified.None? {
        return;
      }
      var alive := Step();
      if !alive {
        return;
      }
      StartHolds(host, d, files, c, draft, qualified.value);
      files := files.(qualified := qualified);
      alive := Step();
      if alive {
        report, held := Some(seen.value.(qualified := true)), Some(c);
      }
    }

    /**
     * `start`, killed after `stop` steps. It makes the root itself, so it never touches one that is there. An answer
     * means the process is held at the approval of one draft, which then is qualified; run to its end on a fresh root
     * with a VM that leads there, it answers.
     */
    method Start(r: Request, stop: nat) returns (report: Option<Report>, ghost held: Option<Capsule>)
      requires Safe(host, created, files, calls)
      modifies this
      ensures Safe(host, created, files, calls) && Kept(old(files), files)
      ensures old(created) ==> report.None? && created && files == old(files) && calls == old(calls)
      ensures report.Some? ==>
                && report.value.qualified
                && Told(host, vm, DefinitionOf(r), files.(qualified := None), calls, report.value.(qualified := false))
      ensures report.Some? ==>
                && held.Some? && held.value.receipt.Some?
                && created
                && Dispatches(calls) == 1
                && (r.mode.Apple? ==> r.sameBefore && r.sameAfter)
                && Ask(vm, calls) == Exported(held.value)
                && calls == old(calls) + [Setup] + [Create] + [Tick(true)] + [Check] + [VmCall.Export]
                && report.value.draft.Some?
                && HeldBy(host, DefinitionOf(r), held.value, report.value.draft.value, files)
      ensures !old(created) && old(calls) == [] && stop >= 10 && Favourable(host, vm, r) ==> report.Some?
    {
      left, report, held := stop, None, None;
      var evidence := BoundedEvidence(r.evidence);
      if !evidence || created {
        return;
      }
      var alive := Step();
      if !alive {
        return;
      }
      created := true;
      if r.mode.Apple? && r.probe.None? {
        return;
      }
      var prepared := Prepare(r);
      if !prepared || (r.mode.Apple? && !r.sameBefore) {
        return;
      }
      var answer := Call(Tick(true));
      if !answer.Done? || (r.mode.Apple? && !r.sameAfter) {
        return;
      }
      report, held := Qualify(DefinitionOf(r));
    }

    /** One command of a history, killed where the attempt says. */
    method Attempt(a: Attempt, ghost plan: Option<Plan>) returns (report: Option<Report>)
      requires Safe(host, created, files, calls)
      requires Planned(host, vm, plan, files, calls) && (plan.Some? ==> created)
      requires plan.Some? ==> Permitted(plan.value, files, a)
      modifies this
      ensures Safe(host, created, files, calls) && Kept(old(files), files)
      ensures Planned(host, vm, plan, files, calls) && (plan.Some? ==> created)
      ensures a.Run? && a.stop <= 2 ==> files == old(files)
      ensures plan.Some? && a.Run? && a.command.Inspect? && a.stop >= 3 ==>
                report == Some(PlannedReport(plan.value, Play(calls)))
      ensures plan.Some? && a.Run? && Asks(plan.value, a.command) && a.stop >= 9 ==>
                report == Some(PlannedReport(plan.value, Play(calls))) && Settled(plan.value, files, Play(calls))
      ensures plan.Some? && a.Run? && Opposes(plan.value, a.command) ==>
                report.None? && files == old(files) && Play(calls) == Play(old(calls))
    {
      match a
      case Begin(r, stop) =>
        ghost var held;
        report, held := Start(r, stop);
      case Run(command, stop) =>
        report := Act(command, stop, plan);
    }

    /**
     * Any commands in any order, each killed at any step, with any VM: at most one inference, never before the started
     * marker, and no artifact ever changes.
     */
    method History(attempts: seq<Attempt>)
      requires Safe(host, created, files, calls)
      modifies this
      ensures Safe(host, created, files, calls) && Kept(old(files), files)
    {
      for i := 0 to |attempts|
        invariant Safe(host, created, files, calls) && Kept(old(files), files)
      {
        label Before:
        var report := Attempt(attempts[i], None);
        KeptTransitive(old(files), old@Before(files), files);
      }
    }

    /**
     * An approval or denial interrupted any number of times, with inspections and further starts in between: running
     * it to its end once gives one and the same root, with its decision delivered once.
     */
    method Retry(attempts: seq<Attempt>, command: Command, stop: nat, ghost plan: Plan) returns (report: Option<Report>)
      requires Safe(host, created, files, calls) && created
      requires Planned(host, vm, Some(plan), files, calls)
      requires Asks(plan, command) && stop >= 9
      requires forall i :: 0 <= i < |attempts| ==> Permitted(plan, files, attempts[i])
      modifies this
      ensures Safe(host, created, files, calls) && Kept(old(files), files)
      ensures report == Some(PlannedReport(plan, Play(calls))) && Settled(plan, files, Play(calls))
    {
      for i := 0 to |attempts|
        invariant Safe(host, created, files, calls) && Kept(old(files), files) && created
        invariant Planned(host, vm, Some(plan), files, calls)
      {
        label Before:
        StillPermitted(plan, old(files), files, attempts[i]);
        var one := Attempt(attempts[i], Some(plan));
        KeptTransitive(old(files), old@Before(files), files);
      }
      label Last:
      report := Attempt(Run(command, stop), Some(plan));
      KeptTransitive(old(files), old@Last(files), files);
    }

    /**
     * Whether the opposite command can still succeed after interrupted ones is decided by `decision.json` alone: it
     * is refused, and changes nothing, exactly when the decision is retained.
     */
    method Oppose(command: Command, stop: nat, ghost plan: Plan) returns (report: Option<Report>)
      requires Safe(host, created, files, calls) && created
      requires Planned(host, vm, Some(plan), files, calls)
      requires Asks(plan.Opposite(), command) && stop >= 9
      modifies this
      ensures Safe(host, created, files, calls) && Kept(old(files), files)
      ensures report.None? <==> old(files).decision.Some?
      ensures old(files).decision.Some? ==> files == old(files) && Play(calls) == Play(old(calls))
      ensures old(files).decision.None? ==> Settled(plan.Opposite(), files, Play(calls))
    {
      if files.decision.Some? {
        report := Attempt(Run(command, stop), Some(plan));
      } else {
        report := Attempt(Run(command, stop), Some(plan.Opposite()));
      }
    }

    /**
     * A concrete such history: an approval killed after its second step has looked at the root but not written
     * `decision.json`; the denial then run to its end succeeds.
     */
    method DenyAfterApprove(approve: Command, deny: Command, ghost plan: Plan) returns (report: Option<Report>)
      requires Safe(host, created, files, calls) && created
      requires Planned(host, vm, Some(plan), files, calls) && files.decision.None?
      requires plan.verdict.Approve? && Asks(plan, approve) && Asks(plan.Opposite(), deny)
      modifies this
      ensures Safe(host, created, files, calls) && Kept(old(files), files)
      ensures report.Some? && Settled(plan.Opposite(), files, Play(calls))
    {
      var killed := Attempt(Run(approve, 2), Some(plan));
      report := Oppose(deny, 9, plan);
    }

    /**
     * From nothing to the end: once a start was answered, whatever interrupted tries of one verdict, inspections and
     * starts follow, the command run to its end settles the plan of that start.
     */
    method StartThenRetry(r: Request, stop: nat, attempts: seq<Attempt>, verdict: Verdict, last: nat,
                          ghost held: Capsule, ghost next: string)
      returns (started: Option<Report>, report: Option<Report>)
      requires !created && files == NO_FILES && calls == []
      requires Orderly(vm, held, next) && Waiting(held)
      requires forall i :: 0 <= i < |attempts| ==> Favours(verdict, attempts[i])
      requires last >= 9
      modifies this
      ensures Safe(host, created, files, calls)
      ensures stop >= 10 && Favourable(host, vm, r) ==> started.Some?
      ensures started.Some? ==>
                && started.value.draft.Some?
                && report.Some?
                && Settled(Plan(DefinitionOf(r), held, started.value.draft.value, next, verdict), files, Play(calls))
    {
      ghost var first;
      started, first := Start(r, stop);
      report := None;
      if started.None? {
        return;
      }
      var draft := started.value.draft.value;
      ghost var plan := Plan(DefinitionOf(r), held, draft, next, verdict);
      FirstExport(vm, held, next);
      StartedOnPlan(host, vm, plan, files);
      report := Retry(attempts, Decide(verdict, draft.proposalDigest, ACTION), last, plan);
    }
  }
}
