/** The records of the private-brief workflow and its inspection (scripts/apple_brief_demo.py). */
module BriefData {
  import opened Text
  import opened Json

  datatype Mode = Apple | Fixture

  /** `definition.json`. `probe` is the digest of the retained bridge preflight, `bridge` the bridge's path. */
  datatype Definition = Definition(mode: Mode, workflow: string, evidence: Json, bridge: string, probe: Option<string>)

  datatype Started = Started(mode: Mode, workflow: string)

  datatype Analysis = Analysis(summary: string, reviewFocus: string)

  /** The contract and the action of a proposal are constants. */
  datatype Proposal = Proposal(workflow: string, evidence: Json, analysis: Analysis)

  datatype Verdict = Approve | Deny

  datatype Decision = Decision(verdict: Verdict, workflow: string, proposalId: string, proposal: Proposal)

  /** The Apple system model reached through one configured bridge, the scripted responses, or anything else. */
  datatype Executor = AppleSystem(bridge: string) | Scripted | Unknown

  /** `output` is `None` for anything that is not an analysis. */
  datatype Effect = Effect(requestDigest: string, output: Option<Analysis>, failed: bool, cached: bool,
                           executor: Executor)

  datatype Qualification = Qualification(mode: Mode, workflow: string, bridge: string, probe: Option<string>,
                                         initialHead: string, initialReceipt: string,
                                         proposalDigest: string, proposalId: string, effect: Effect)

  /** The artifacts that are written once. `report.json` and `report.html` are replaced freely and decide nothing. */
  datatype Files = Files(definition: Option<Definition>, started: Option<Started>, qualified: Option<Qualification>,
                         decision: Option<Decision>, publication: Option<Proposal>)

  const NO_FILES := Files(None, None, None, None, None)

  // ----- what the native VM exports -----

  datatype Status = Suspended | Complete | Unsettled

  /** What `wait/receive` delivered: nothing but `null`, a decision, or any other document. */
  datatype Message = Nothing | Decided(decision: Decision) | Other

  /**
   * The cells of a receipt. `recommend` and `wait` are set when those cells are committed, `publish` says whether that
   * one is; `envelope` and `authorize` are `None` when the cell put out anything but a proposal.
   */
  datatype Receipt = Receipt(recommend: Option<Analysis>, effectDigest: string, effects: seq<Effect>,
                             envelope: Option<Proposal>, proposalId: string, wait: Option<Message>,
                             publish: bool, authorize: Option<Proposal>)

  datatype Record = Record(head: string, receipt: string, generation: nat, status: Status)

  /**
   * `bound` says whether the exported record has the arguments, the manifest and the name of the definition;
   * `receiptId` names that record's receipt, and `receipt` is the receipt itself.
   */
  datatype Capsule = Capsule(bound: bool, head: string, status: Status, generation: nat, receiptId: string,
                             receipt: Option<Receipt>, records: seq<Record>)

  datatype Draft = Draft(proposal: Proposal, proposalDigest: string, proposalId: string, effect: Effect)

  datatype Report = Report(head: string, status: Status, generation: nat, draft: Option<Draft>, publication: bool,
                           qualified: bool)

  // ----- inspection -----

  function StartedOf(d: Definition): Started {
    Started(d.mode, d.workflow)
  }

  function ExecutorOf(d: Definition): Executor {
    match d.mode case Apple => AppleSystem(d.bridge) case Fixture => Scripted
  }

  function Matching(effects: seq<Effect>, requestDigest: string): seq<Effect> {
    if effects == [] then []
    else
      (if effects[0].requestDigest == requestDigest then [effects[0]] else [])
      + Matching(effects[1..], requestDigest)
  }

  function Initial(records: seq<Record>): seq<Record> {
    if records == [] then []
    else
      (if records[0].generation == 1 && records[0].status.Suspended? then [records[0]] else [])
      + Initial(records[1..])
  }

  function AsMessage(decision: Option<Decision>): Message {
    match decision case None => Nothing case Some(d) => Decided(d)
  }

  /** The digest, the bounds on generated text and the pattern of a delivery id are given from outside. */
  datatype Host = Host(digest: Proposal -> string, bounded: Analysis -> bool, deliveryId: string -> bool)

  /** The draft the receipt holds, checked against the definition, the started marker and the one recorded effect. */
  function DraftOf(host: Host, d: Definition, files: Files, r: Receipt, analysis: Analysis): Option<Draft> {
    var effects := Matching(r.effects, r.effectDigest);
    var proposal := Proposal(d.workflow, d.evidence, analysis);
    if !host.bounded(analysis) then None
    else if |effects| != 1 || effects[0].output != Some(analysis) || effects[0].failed || effects[0].cached then None
    else if files.started != Some(StartedOf(d)) then None
    else if effects[0].executor != ExecutorOf(d) then None
    else if r.envelope != Some(proposal) then None
    else if !host.deliveryId(r.proposalId) then None
    else Some(Draft(proposal, host.digest(proposal), r.proposalId, effects[0]))
  }

  /** The retained decision and the published report agree with what the process received and committed. */
  predicate Consistent(d: Definition, files: Files, r: Receipt, draft: Draft) {
    && (r.wait.Some? ==> r.wait.value == AsMessage(files.decision))
    && (r.publish ==> files.decision == Some(Decision(Approve, d.workflow, draft.proposalId, draft.proposal)))
    && (r.publish ==> r.authorize == Some(draft.proposal))
    && (files.publication.Some? ==> r.publish && files.publication.value == draft.proposal)
  }

  function QualificationOf(d: Definition, draft: Draft, head: string, receipt: string): Option<Qualification> {
    if d.mode.Apple? && d.probe.None? then None
    else
      Some(Qualification(d.mode, d.workflow, d.bridge, d.probe, head, receipt,
                         draft.proposalDigest, draft.proposalId, draft.effect))
  }

  predicate QualificationHolds(d: Definition, files: Files, c: Capsule, draft: Draft) {
    var initial := Initial(c.records);
    |initial| == 1 && files.qualified == QualificationOf(d, draft, initial[0].head, initial[0].receipt)
  }

  function Inspection(host: Host, d: Definition, files: Files, c: Capsule): Option<Report> {
    var blank := Report(c.head, c.status, c.generation, None, false, false);
    if !c.bound || (files.started.Some? && files.started != Some(StartedOf(d))) then None
    else if c.receipt.None? || c.receipt.value.recommend.None? then Some(blank)
    else
      var r := c.receipt.value;
      match DraftOf(host, d, files, r, r.recommend.value)
      case None => None
      case Some(draft) =>
        if !Consistent(d, files, r, draft) then None
        else if files.qualified.None? then Some(blank.(draft := Some(draft), publication := r.publish))
        else if QualificationHolds(d, files, c, draft) then
          Some(blank.(draft := Some(draft), publication := r.publish, qualified := true))
        else None
  }

  /** The effect at `i` is the only one of the request. */
  predicate OnlyEffect(effects: seq<Effect>, requestDigest: string, i: nat) {
    && i < |effects|
    && effects[i].requestDigest == requestDigest
    && forall j :: 0 <= j < |effects| && j != i ==> effects[j].requestDigest != requestDigest
  }

  lemma {:induction false} NoneMatching(effects: seq<Effect>, requestDigest: string)
    ensures Matching(effects, requestDigest) == [] <==>
              forall j :: 0 <= j < |effects| ==> effects[j].requestDigest != requestDigest
  {
    if effects != [] {
      NoneMatching(effects[1..], requestDigest);
      assert forall j :: 1 <= j < |effects| ==> effects[j] == effects[1..][j - 1];
      if Matching(effects, requestDigest) == [] {
        assert forall j :: 0 <= j < |effects[1..]| ==> effects[1..][j].requestDigest != requestDigest;
      } else if effects[0].requestDigest != requestDigest {
        var j :| 0 <= j < |effects[1..]| && effects[1..][j].requestDigest == requestDigest;
        assert effects[j + 1].requestDigest == requestDigest;
      }
    }
  }

  lemma {:induction false} OneMatching(effects: seq<Effect>, requestDigest: string) returns (i: nat)
    requires |Matching(effects, requestDigest)| == 1
    ensures OnlyEffect(effects, requestDigest, i) && Matching(effects, requestDigest) == [effects[i]]
  {
    if effects[0].requestDigest == requestDigest {
      NoneMatching(effects[1..], requestDigest);
      i := 0;
      forall j | 0 <= j < |effects| && j != i
        ensures effects[j].requestDigest != requestDigest
      {
        assert effects[j] == effects[1..][j - 1];
      }
    } else {
      var k := OneMatching(effects[1..], requestDigest);
      i := k + 1;
      forall j | 0 <= j < |effects| && j != i
        ensures effects[j].requestDigest != requestDigest
      {
        assert j > 0 ==> effects[j] == effects[1..][j - 1];
      }
    }
  }

  /** The Apple system model through the definition's own bridge, or the scripted responses. */
  predicate AdmittedExecutor(d: Definition, executor: Executor) {
    && (d.mode.Apple? ==> executor == AppleSystem(d.bridge))
    && (d.mode.Fixture? ==> executor == Scripted)
  }

  /**
   * A draft is the generated analysis of exactly one recorded effect, which succeeded, was not taken from a cache and
   * came from the admitted executor; it is bound to the workflow and its evidence, and only after the started marker.
   */
  ghost predicate Generated(host: Host, d: Definition, files: Files, r: Receipt, analysis: Analysis, draft: Draft) {
    && host.bounded(analysis)
    && (exists i: nat :: OnlyEffect(r.effects, r.effectDigest, i) && r.effects[i] == draft.effect)
    && draft.effect.output == Some(analysis) && !draft.effect.failed && !draft.effect.cached
    && AdmittedExecutor(d, draft.effect.executor)
    && files.started == Some(Started(d.mode, d.workflow))
    && draft.proposal.workflow == d.workflow && draft.proposal.evidence == d.evidence
    && draft.proposal.analysis == analysis
    && r.envelope == Some(draft.proposal)
    && draft.proposalDigest == host.digest(draft.proposal)
    && draft.proposalId == r.proposalId && host.deliveryId(draft.proposalId)
  }

  lemma {:induction false} MatchingOnly(effects: seq<Effect>, requestDigest: string, i: nat)
    requires OnlyEffect(effects, requestDigest, i)
    ensures Matching(effects, requestDigest) == [effects[i]]
  {
    if i == 0 {
      NoneMatching(effects[1..], requestDigest);
    } else {
      assert effects[0].requestDigest != requestDigest;
      assert forall j :: 0 <= j < |effects[1..]| ==> effects[1..][j] == effects[j + 1];
      MatchingOnly(effects[1..], requestDigest, i - 1);
    }
  }

  /** A receipt gives a draft exactly when it is generated in this way, and no other draft. */
  lemma DraftVouches(host: Host, d: Definition, files: Files, r: Receipt, analysis: Analysis, draft: Draft)
    ensures DraftOf(host, d, files, r, analysis) == Some(draft) <==> Generated(host, d, files, r, analysis, draft)
  {
    if |Matching(r.effects, r.effectDigest)| == 1 {
      var i := OneMatching(r.effects, r.effectDigest);
    }
    if i: nat :| OnlyEffect(r.effects, r.effectDigest, i) && r.effects[i] == draft.effect {
      MatchingOnly(r.effects, r.effectDigest, i);
    }
  }

  /** What a report vouches for. */
  predicate Vouched(host: Host, d: Definition, files: Files, report: Report) {
    && (report.qualified ==>
          && report.draft.Some?
          && files.qualified.Some?
          && files.qualified.value.proposalId == report.draft.value.proposalId
          && files.qualified.value.proposalDigest == report.draft.value.proposalDigest)
    && (report.draft.Some? ==>
          && files.started == Some(StartedOf(d))
          && report.draft.value.proposalDigest == host.digest(report.draft.value.proposal)
          && report.draft.value.proposal.workflow == d.workflow
          && report.draft.value.proposal.evidence == d.evidence)
    && (report.publication ==>
          && report.draft.Some?
          && files.decision == Some(Decision(Approve, d.workflow, report.draft.value.proposalId,
                                             report.draft.value.proposal)))
    && (files.publication.Some? && report.draft.Some? ==>
          report.publication && files.publication == Some(report.draft.value.proposal))
  }

  lemma InspectionVouches(host: Host, d: Definition, files: Files, c: Capsule)
    requires Inspection(host, d, files, c).Some?
    ensures Vouched(host, d, files, Inspection(host, d, files, c).value)
    ensures var report := Inspection(host, d, files, c).value;
            report.head == c.head && report.status == c.status && report.generation == c.generation
  {
  }

  /** What the process received is the retained decision: nothing, or that one. */
  predicate ReceivedRetained(message: Message, decision: Option<Decision>) {
    && (decision.None? ==> message.Nothing?)
    && (decision.Some? ==> message == Decided(decision.value))
  }

  /** The record is the only one of a first generation that is held. */
  predicate OnlyInitial(records: seq<Record>, j: nat) {
    && j < |records|
    && records[j].generation == 1 && records[j].status.Suspended?
    && forall k :: 0 <= k < |records| && k != j ==> records[k].generation != 1 || !records[k].status.Suspended?
  }

  lemma {:induction false} NoInitial(records: seq<Record>)
    ensures Initial(records) == [] <==>
              forall k :: 0 <= k < |records| ==> records[k].generation != 1 || !records[k].status.Suspended?
  {
    if records != [] {
      NoInitial(records[1..]);
      assert forall k :: 1 <= k < |records| ==> records[k] == records[1..][k - 1];
      if forall k :: 0 <= k < |records| ==> records[k].generation != 1 || !records[k].status.Suspended? {
        assert forall k :: 0 <= k < |records[1..]| ==> records[1..][k] == records[k + 1];
      } else {
        var k :| 0 <= k < |records| && records[k].generation == 1 && records[k].status.Suspended?;
        assert k > 0 ==> records[1..][k - 1] == records[k];
      }
    }
  }

  lemma {:induction false} InitialOnly(records: seq<Record>, j: nat)
    requires OnlyInitial(records, j)
    ensures Initial(records) == [records[j]]
  {
    if j == 0 {
      assert forall k :: 0 <= k < |records[1..]| ==> records[1..][k] == records[k + 1];
      NoInitial(records[1..]);
    } else {
      assert records[0].generation != 1 || !records[0].status.Suspended?;
      assert forall k :: 0 <= k < |records[1..]| ==> records[1..][k] == records[k + 1];
      InitialOnly(records[1..], j - 1);
    }
  }

  lemma {:induction false} OneInitial(records: seq<Record>) returns (j: nat)
    requires |Initial(records)| == 1
    ensures OnlyInitial(records, j) && Initial(records) == [records[j]]
  {
    if records[0].generation == 1 && records[0].status.Suspended? {
      j := 0;
      NoInitial(records[1..]);
      assert forall k :: 1 <= k < |records| ==> records[k] == records[1..][k - 1];
    } else {
      var k := OneInitial(records[1..]);
      j := k + 1;
      assert forall i :: 1 <= i < |records| ==> records[i] == records[1..][i - 1];
    }
  }

  /** The retained qualification is that of the draft at the process's one initial record. */
  ghost predicate QualifiedAt(d: Definition, q: Qualification, c: Capsule, draft: Draft) {
    && (d.mode.Apple? ==> d.probe.Some? && q.probe == d.probe)
    && (exists j: nat :: OnlyInitial(c.records, j)
                    && q.initialHead == c.records[j].head && q.initialReceipt == c.records[j].receipt)
    && q.mode == d.mode && q.workflow == d.workflow && q.bridge == d.bridge && q.probe == d.probe
    && q.proposalDigest == draft.proposalDigest && q.proposalId == draft.proposalId && q.effect == draft.effect
  }

  /** A receipt without a committed analysis. */
  predicate Undrafted(c: Capsule) {
    c.receipt.None? || c.receipt.value.recommend.None?
  }

  /** What a report with a draft says of the capsule and the artifacts. */
  ghost predicate Drafted(host: Host, d: Definition, files: Files, c: Capsule, report: Report)
    requires !Undrafted(c)
  {
    var r := c.receipt.value;
    && report.draft.Some?
    && Generated(host, d, files, r, r.recommend.value, report.draft.value)
    && (r.wait.Some? ==> ReceivedRetained(r.wait.value, files.decision))
    && report.publication == r.publish
    && (r.publish ==>
          && files.decision == Some(Decision(Approve, d.workflow, report.draft.value.proposalId,
                                             report.draft.value.proposal))
          && r.authorize == Some(report.draft.value.proposal))
    && (files.publication.Some? ==> r.publish && files.publication == Some(report.draft.value.proposal))
    && report.qualified == files.qualified.Some?
    && (files.qualified.Some? ==> QualifiedAt(d, files.qualified.value, c, report.draft.value))
  }

  /** What a report says of the capsule and the artifacts. */
  ghost predicate Reported(host: Host, d: Definition, files: Files, c: Capsule, report: Report) {
    && c.bound
    && (files.started.Some? ==> files.started == Some(Started(d.mode, d.workflow)))
    && report.head == c.head && report.status == c.status && report.generation == c.generation
    && if Undrafted(c) then report.draft.None? && !report.publication && !report.qualified
       else Drafted(host, d, files, c, report)
  }

  lemma QualificationIs(d: Definition, files: Files, c: Capsule, draft: Draft)
    requires files.qualified.Some?
    ensures QualificationHolds(d, files, c, draft) <==> QualifiedAt(d, files.qualified.value, c, draft)
  {
    if |Initial(c.records)| == 1 {
      var j := OneInitial(c.records);
    }
    var q := files.qualified.value;
    if j: nat :| OnlyInitial(c.records, j) && q.initialHead == c.records[j].head
                 && q.initialReceipt == c.records[j].receipt {
      InitialOnly(c.records, j);
    }
  }

  /** Inspection accepts and reports exactly this. */
  lemma InspectionExactly(host: Host, d: Definition, files: Files, c: Capsule, report: Report)
    ensures Inspection(host, d, files, c) == Some(report) <==> Reported(host, d, files, c, report)
  {
    if !Undrafted(c) {
      var r := c.receipt.value;
      if DraftOf(host, d, files, r, r.recommend.value).Some? {
        var draft := DraftOf(host, d, files, r, r.recommend.value).value;
        DraftVouches(host, d, files, r, r.recommend.value, draft);
        if files.qualified.Some? {
          QualificationIs(d, files, c, draft);
        }
      }
      if report.draft.Some? {
        DraftVouches(host, d, files, r, r.recommend.value, report.draft.value);
        if files.qualified.Some? {
          QualificationIs(d, files, c, report.draft.value);
        }
      }
    }
  }
}
