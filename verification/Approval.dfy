/** The approval chain of a task: its gates, its status, its violations and the history of what happened to it. */
module ApprovalState {
  import opened Common

  datatype RiskLevel = Green | Yellow | Orange | Red | Critical

  datatype Status = Pending | Approved | Rejected | Escalated | Blocked

  datatype GateStatus = GatePending | GateApproved | GateRejected

  datatype Gate = Gate(name: string, status: GateStatus, signedBy: Option<string>, comment: string)

  datatype Kind = AutomatedPass | ApprovedGate(name: string) | RejectedGate(name: string) | WorkflowApproved
    | NoGoViolation | Escalation

  datatype Event = Event(kind: Kind, actor: string, detail: string)

  datatype Chain = Chain(gates: seq<Gate>, status: Status, violations: seq<string>, history: seq<Event>)

  datatype Operation = MarkAutomatedPass | ApproveGate(gate: string, actor: string, reason: string)
    | RejectGate(gate: string, actor: string, reason: string) | AddNoGoViolation(violation: string)
    | Escalate(reason: string)

  /** The event name that the history shows. */
  function EventName(k: Kind): string {
    match k
    case AutomatedPass => "automated_pass"
    case ApprovedGate(name) => "gate_approved:" + name
    case RejectedGate(name) => "gate_rejected:" + name
    case WorkflowApproved => "workflow_approved"
    case NoGoViolation => "no_go_violation"
    case Escalation => "escalated"
  }

  /** No gate name can make one kind of event look like another. */
  lemma EventNamesTellKinds(j: Kind, k: Kind)
    requires EventName(j) == EventName(k)
    ensures j == k
  {
    var x, y := EventName(j), EventName(k);
    assert x[0] == y[0] && (|x| > 5 ==> x[5] == y[5]);
    if j.ApprovedGate? || j.RejectedGate? {
      assert x[14..] == j.name;
    }
    if k.ApprovedGate? || k.RejectedGate? {
      assert y[14..] == k.name;
    }
    assert |"gate_approved:"| == 14 && "gate_approved:"[5] == 'a' && "gate_rejected:"[5] == 'r';
  }

  // ------------------------------------------------------------------ operations

  function FreshGate(name: string): Gate {
    Gate(name, GatePending, None, "")
  }

  /** The gates a chain starts with. */
  function InitialGates(risk: RiskLevel): seq<Gate> {
    [FreshGate("Automated"), FreshGate("Aegis"), FreshGate("Iris")]
    + (if risk == Green then [] else [FreshGate("Reviewer")])
    + (if risk in {Orange, Red, Critical} then [FreshGate("Human")] else [])
    + (if risk in {Red, Critical} then [FreshGate("EmergencyBoard")] else [])
  }

  const GateNames := ["Automated", "Aegis", "Iris", "Reviewer", "Human", "EmergencyBoard"]

  /**
   * The gates of each risk level: three at green, and one more of reviewer, human and emergency board at every further
   * level up to red, which asks for the same as critical. None is signed.
   */
  lemma InitialGatesMeaning(risk: RiskLevel)
    ensures |InitialGates(risk)| == match risk case Green => 3 case Yellow => 4 case Orange => 5 case _ => 6
    ensures forall i :: 0 <= i < |InitialGates(risk)| ==>
      InitialGates(risk)[i] == Gate(GateNames[i], GatePending, None, "")
  {
    var names := GateNames;
    var gates := InitialGates(risk);
    assert gates[0] == FreshGate(names[0]) && gates[1] == FreshGate(names[1]) && gates[2] == FreshGate(names[2]);
    assert |gates| > 3 ==> gates[3] == FreshGate(names[3]);
    assert |gates| > 4 ==> gates[4] == FreshGate(names[4]);
    assert |gates| > 5 ==> gates[5] == FreshGate(names[5]);
  }

  /** How the events read. */
  function EventNames(history: seq<Event>): seq<string> {
    seq(|history|, i requires 0 <= i < |history| => EventName(history[i].kind))
  }

  lemma EventNamesAppend(history: seq<Event>, e: Event)
    ensures EventNames(history + [e]) == EventNames(history) + [EventName(e.kind)]
  {
  }

  function NewChain(risk: RiskLevel): Chain {
    Chain(InitialGates(risk), Pending, [], [])
  }

  predicate HasGate(gates: seq<Gate>, name: string) {
    exists i :: 0 <= i < |gates| && gates[i].name == name
  }

  /** Signs the gate of that name. */
  function Signed(gates: seq<Gate>, name: string, status: GateStatus, actor: string, comment: string): (r: seq<Gate>)
    ensures |r| == |gates|
    ensures forall i :: 0 <= i < |r| ==>
      r[i] == if gates[i].name == name then Gate(name, status, Some(actor), comment) else gates[i]
  {
    seq(|gates|, i requires 0 <= i < |gates| =>
      if gates[i].name == name then Gate(name, status, Some(actor), comment) else gates[i])
  }

  predicate AllApproved(gates: seq<Gate>) {
    forall i :: 0 <= i < |gates| ==> gates[i].status == GateApproved
  }

  /** Every gate is approved and there is no violation. */
  predicate CanProceed(c: Chain) {
    c.violations == [] && AllApproved(c.gates)
  }

  function Logged(c: Chain, kind: Kind, actor: string, detail: string): Chain {
    c.(history := c.history + [Event(kind, actor, detail)])
  }

  /** The chain after an operation. */
  function Apply(c: Chain, op: Operation): Chain {
    match op
    case MarkAutomatedPass =>
      var gates := Signed(c.gates, "Automated", GateApproved, "system", "Automated pre-flight checks passed");
      Logged(c.(gates := gates), AutomatedPass, "System", "")
    case ApproveGate(name, actor, reason) =>
      if !HasGate(c.gates, name) then c
      else
        var signed := c.(gates := Signed(c.gates, name, GateApproved, actor, reason));
        var noted := Logged(signed, ApprovedGate(name), actor, "");
        if CanProceed(noted) then Logged(noted.(status := Approved), WorkflowApproved, actor, "") else noted
    case RejectGate(name, actor, reason) =>
      if !HasGate(c.gates, name) then c
      else
        var signed := c.(gates := Signed(c.gates, name, GateRejected, actor, reason), status := Rejected);
        Logged(signed, RejectedGate(name), actor, "")
    case AddNoGoViolation(violation) =>
      Logged(c.(violations := c.violations + [violation], status := Blocked), NoGoViolation, "system", violation)
    case Escalate(reason) =>
      var gates := if HasGate(c.gates, "EmergencyBoard") then c.gates else c.gates + [FreshGate("EmergencyBoard")];
      Logged(c.(gates := gates, status := Escalated), Escalation, "system", reason)
  }

  /** The chain after some operations, the first one first. */
  function AfterAll(c: Chain, ops: seq<Operation>): Chain {
    if ops == [] then c else Apply(AfterAll(c, ops[..|ops| - 1]), ops[|ops| - 1])
  }

  // ------------------------------------------------------------------ what the history says

  /** What an event says about a gate, if it is about that gate. */
  function SaysOfGate(k: Kind, name: string): Option<GateStatus> {
    match k
    case AutomatedPass => if name == "Automated" then Some(GateApproved) else None
    case ApprovedGate(n) => if name == n then Some(GateApproved) else None
    case RejectedGate(n) => if name == n then Some(GateRejected) else None
    case _ => None
  }

  /** The status the history gives a gate: that of the latest event about it. */
  function LatestOfGate(history: seq<Event>, name: string): GateStatus {
    if history == [] then GatePending
    else
      var said := SaysOfGate(history[|history| - 1].kind, name);
      if said.Some? then said.value else LatestOfGate(history[..|history| - 1], name)
  }

  function SaysOfChain(k: Kind): Option<Status> {
    match k
    case RejectedGate(_) => Some(Rejected)
    case WorkflowApproved => Some(Approved)
    case NoGoViolation => Some(Blocked)
    case Escalation => Some(Escalated)
    case _ => None
  }

  /** The status the history gives the chain. */
  function LatestOfChain(history: seq<Event>): Status {
    if history == [] then Pending
    else
      var said := SaysOfChain(history[|history| - 1].kind);
      if said.Some? then said.value else LatestOfChain(history[..|history| - 1])
  }

  lemma LatestAfter(history: seq<Event>, e: Event, name: string)
    ensures LatestOfGate(history + [e], name) ==
      if SaysOfGate(e.kind, name).Some? then SaysOfGate(e.kind, name).value else LatestOfGate(history, name)
    ensures LatestOfChain(history + [e]) ==
      if SaysOfChain(e.kind).Some? then SaysOfChain(e.kind).value else LatestOfChain(history)
  {
    assert (history + [e])[..|history|] == history;
  }

  // ------------------------------------------------------------------ what every run keeps

  /** Each gate's status is its latest event in the history; gates without one have no events. */
  ghost predicate GatesMatchHistory(c: Chain) {
    && (forall i :: 0 <= i < |c.gates| ==> c.gates[i].status == LatestOfGate(c.history, c.gates[i].name))
    && (forall name :: !HasGate(c.gates, name) ==> LatestOfGate(c.history, name) == GatePending)
  }

  ghost predicate Sound(c: Chain) {
    && HasGate(c.gates, "Automated")
    && GatesMatchHistory(c)
    && c.status == LatestOfChain(c.history)
    && (c.status == Approved ==> CanProceed(c))
  }

  lemma NewChainIsSound(risk: RiskLevel)
    ensures Sound(NewChain(risk))
  {
    assert InitialGates(risk)[0].name == "Automated";
  }

  lemma SignedHas(gates: seq<Gate>, name: string, status: GateStatus, actor: string, comment: string, other: string)
    ensures HasGate(Signed(gates, name, status, actor, comment), other) <==> HasGate(gates, other)
  {
    var signed := Signed(gates, name, status, actor, comment);
    assert forall i :: 0 <= i < |gates| ==> signed[i].name == gates[i].name;
  }

  /** Signing a gate and logging it keeps gates and history in line. */
  lemma SigningMatches(c: Chain, name: string, status: GateStatus, actor: string, comment: string, e: Event)
    requires GatesMatchHistory(c) && HasGate(c.gates, name)
    requires forall n :: SaysOfGate(e.kind, n) == if n == name then Some(status) else None
    ensures GatesMatchHistory(c.(gates := Signed(c.gates, name, status, actor, comment), history := c.history + [e]))
  {
    forall n ensures LatestOfGate(c.history + [e], n) == if n == name then status else LatestOfGate(c.history, n) {
      LatestAfter(c.history, e, n);
    }
    forall n ensures HasGate(Signed(c.gates, name, status, actor, comment), n) <==> HasGate(c.gates, n) {
      SignedHas(c.gates, name, status, actor, comment, n);
    }
  }

  /** Logging an event that is about no gate, perhaps with a new pending gate, keeps them in line too. */
  lemma LoggingMatches(c: Chain, gates: seq<Gate>, e: Event)
    requires GatesMatchHistory(c)
    requires gates == c.gates || (exists n :: !HasGate(c.gates, n) && gates == c.gates + [FreshGate(n)])
    requires forall n :: SaysOfGate(e.kind, n) == None
    ensures GatesMatchHistory(c.(gates := gates, history := c.history + [e]))
  {
    forall n ensures LatestOfGate(c.history + [e], n) == LatestOfGate(c.history, n) {
      LatestAfter(c.history, e, n);
    }
    forall n | HasGate(c.gates, n) ensures HasGate(gates, n) {
      var i :| 0 <= i < |c.gates| && c.gates[i].name == n;
      assert gates[i] == c.gates[i];
    }
  }

  lemma ApprovingKeepsSound(c: Chain, name: string, actor: string, reason: string)
    requires Sound(c)
    ensures Sound(Apply(c, ApproveGate(name, actor, reason)))
  {
    if HasGate(c.gates, name) {
      var e := Event(ApprovedGate(name), actor, "");
      SigningMatches(c, name, GateApproved, actor, reason, e);
      SignedHas(c.gates, name, GateApproved, actor, reason, "Automated");
      LatestAfter(c.history, e, name);
      var noted := Logged(c.(gates := Signed(c.gates, name, GateApproved, actor, reason)), e.kind, actor, "");
      var done := Event(WorkflowApproved, actor, "");
      LoggingMatches(noted, noted.gates, done);
      LatestAfter(noted.history, done, name);
    }
  }

  lemma SigningKeepsSound(c: Chain, op: Operation)
    requires Sound(c) && (op.MarkAutomatedPass? || op.RejectGate?)
    ensures Sound(Apply(c, op))
  {
    match op
    case MarkAutomatedPass =>
      var e := Event(AutomatedPass, "System", "");
      SigningMatches(c, "Automated", GateApproved, "system", "Automated pre-flight checks passed", e);
      SignedHas(c.gates, "Automated", GateApproved, "system", "Automated pre-flight checks passed", "Automated");
      LatestAfter(c.history, e, "Automated");
    case RejectGate(name, actor, reason) =>
      if HasGate(c.gates, name) {
        var e := Event(RejectedGate(name), actor, "");
        SigningMatches(c, name, GateRejected, actor, reason, e);
        SignedHas(c.gates, name, GateRejected, actor, reason, "Automated");
        LatestAfter(c.history, e, name);
      }
  }

  lemma NotingKeepsSound(c: Chain, op: Operation)
    requires Sound(c) && (op.AddNoGoViolation? || op.Escalate?)
    ensures Sound(Apply(c, op))
  {
    var after := Apply(c, op);
    var e := after.history[|c.history|];
    LoggingMatches(c, after.gates, e);
    LatestAfter(c.history, e, "Automated");
    var i :| 0 <= i < |c.gates| && c.gates[i].name == "Automated";
    assert after.gates[i].name == "Automated";
  }

  /** Every operation keeps a chain sound. */
  lemma {:induction false} StepKeepsSound(c: Chain, op: Operation)
    requires Sound(c)
    ensures Sound(Apply(c, op))
  {
    match op
    case ApproveGate(name, actor, reason) => ApprovingKeepsSound(c, name, actor, reason);
    case MarkAutomatedPass => SigningKeepsSound(c, op);
    case RejectGate(_, _, _) => SigningKeepsSound(c, op);
    case AddNoGoViolation(_) => NotingKeepsSound(c, op);
    case Escalate(_) => NotingKeepsSound(c, op);
  }

  /**
   * In every run, an approved chain has all gates approved and no violation, each gate's status is its latest
   * event, and the chain's status is the latest event about the chain.
   */
  lemma {:induction false} EveryRunIsSound(risk: RiskLevel, ops: seq<Operation>)
    ensures Sound(AfterAll(NewChain(risk), ops))
    decreases |ops|, risk
  {
    if ops == [] {
      NewChainIsSound(risk);
    } else {
      var n := |ops| - 1;
      EveryRunIsSound(risk, ops[..n]);
      StepKeepsSound(AfterAll(NewChain(risk), ops[..n]), ops[n]);
    }
  }

  // ------------------------------------------------------------------ permission to execute

  datatype Verdict = NoChain | HasViolations(violations: seq<string>) | HasPending(gates: seq<string>)
    | NotApproved(status: Status) | Clear

  /** The names of the pending gates, in order. */
  function PendingGates(gates: seq<Gate>): seq<string> {
    if gates == [] then []
    else
      var before := PendingGates(gates[..|gates| - 1]);
      var last := gates[|gates| - 1];
      if last.status == GatePending then before + [last.name] else before
  }

  /** Every pending gate is listed, in the order of the gates. */
  lemma {:induction false} PendingGatesMeaning(gates: seq<Gate>)
    ensures PendingGates(gates) == [] <==> forall i :: 0 <= i < |gates| ==> gates[i].status != GatePending
    ensures forall i :: 0 <= i < |gates| && gates[i].status == GatePending ==>
      var earlier := PendingGates(gates[..i]);
      earlier + [gates[i].name] <= PendingGates(gates)
    ensures forall name :: name in PendingGates(gates) ==>
      exists i :: 0 <= i < |gates| && gates[i].name == name && gates[i].status == GatePending
  {
    if gates != [] {
      var n := |gates| - 1;
      PendingGatesMeaning(gates[..n]);
      forall i | 0 <= i < n ensures gates[..n][..i] == gates[..i] {
      }
    }
  }

  function Judged(c: Chain): Verdict {
    if c.violations != [] then HasViolations(c.violations)
    else if PendingGates(c.gates) != [] then HasPending(PendingGates(c.gates))
    else if c.status != Approved then NotApproved(c.status)
    else Clear
  }

  /** A gate of this name is pending. */
  ghost predicate Awaits(c: Chain, name: string) {
    exists i :: 0 <= i < |c.gates| && c.gates[i].name == name && c.gates[i].status == GatePending
  }

  /** Violations come first, then pending gates, which are all named, then the status. */
  lemma JudgedMeaning(c: Chain)
    ensures Judged(c).HasViolations? <==> c.violations != []
    ensures Judged(c).HasPending? <==> c.violations == [] && exists name :: Awaits(c, name)
    ensures Judged(c).HasPending? ==> forall name :: name in Judged(c).gates <==> Awaits(c, name)
    ensures Judged(c).NotApproved? <==> c.violations == [] && c.status != Approved && forall name :: !Awaits(c, name)
    ensures Judged(c) == Clear <==> c.violations == [] && c.status == Approved && forall name :: !Awaits(c, name)
    ensures Judged(c).HasViolations? ==> Judged(c).violations == c.violations
    ensures Judged(c).NotApproved? ==> Judged(c).status == c.status
  {
    PendingGatesMeaning(c.gates);
    forall i | 0 <= i < |c.gates| && c.gates[i].status == GatePending
      ensures c.gates[i].name in PendingGates(c.gates)
    {
      var listed := PendingGates(c.gates[..i]) + [c.gates[i].name];
      assert listed[|listed| - 1] == PendingGates(c.gates)[|listed| - 1];
    }
    assert forall name :: name in PendingGates(c.gates) <==> Awaits(c, name);
    assert PendingGates(c.gates) != [] ==> PendingGates(c.gates)[0] in PendingGates(c.gates);
  }

  /** Execution is clear exactly when the status is approved: on sound chains the other checks add nothing. */
  lemma ClearIffApproved(c: Chain)
    requires Sound(c)
    ensures Judged(c) == Clear <==> c.status == Approved
  {
    PendingGatesMeaning(c.gates);
  }

  /** Once there is a violation, no operations ever clear the chain again. */
  lemma {:induction false} ViolationIsForever(c: Chain, ops: seq<Operation>)
    requires c.violations != []
    ensures Judged(AfterAll(c, ops)).HasViolations? && c.violations <= AfterAll(c, ops).violations
    decreases |ops|, c.violations
  {
    if ops != [] {
      ViolationIsForever(c, ops[..|ops| - 1]);
    }
  }

  /** The status is approved exactly when the chain could proceed. */
  ghost predicate InStep(c: Chain) {
    c.status == Approved <==> CanProceed(c)
  }

  /** Only the automated gate is still missing. */
  ghost predicate OnlyAutomatedMissing(c: Chain) {
    && c.violations == [] && !AllApproved(c.gates)
    && forall i :: 0 <= i < |c.gates| && c.gates[i].name != "Automated" ==> c.gates[i].status == GateApproved
  }

  /**
   * Status and gates part ways in two cases only: the automated pass comes last, which no code follows up by
   * approving the chain, and an approved chain is escalated to a board that has already approved.
   */
  lemma WhenApprovalIsMissed(c: Chain, op: Operation)
    requires Sound(c) && InStep(c)
    ensures !InStep(Apply(c, op)) <==>
      || (op == MarkAutomatedPass && OnlyAutomatedMissing(c))
      || (op.Escalate? && c.status == Approved && HasGate(c.gates, "EmergencyBoard"))
  {
    StepKeepsSound(c, op);
    var after := Apply(c, op);
    if op.MarkAutomatedPass? {
      AutomatedPassApproves(c);
    } else if op.Escalate? && !HasGate(c.gates, "EmergencyBoard") {
      assert after.gates[|c.gates|].status == GatePending;
    } else if op.RejectGate? && HasGate(c.gates, op.gate) {
      var i :| 0 <= i < |c.gates| && c.gates[i].name == op.gate;
      assert after.gates[i].status == GateRejected;
    }
  }

  lemma AutomatedPassApproves(c: Chain)
    ensures CanProceed(Apply(c, MarkAutomatedPass)) <==> CanProceed(c) || OnlyAutomatedMissing(c)
  {
    var gates := Apply(c, MarkAutomatedPass).gates;
    if AllApproved(gates) {
      forall i | 0 <= i < |c.gates| && c.gates[i].name != "Automated" ensures c.gates[i].status == GateApproved {
        assert gates[i].status == GateApproved;
      }
    }
  }

  /** A chain that could proceed but is not approved needs only another approval, of any gate. */
  lemma ApprovingAgainRepairs(c: Chain, name: string, actor: string, reason: string)
    requires CanProceed(c) && HasGate(c.gates, name)
    ensures Apply(c, ApproveGate(name, actor, reason)).status == Approved
  {
  }

  /** One approval for each of the first `k` gates. */
  function ApproveFirst(gates: seq<Gate>, k: nat, actor: string): (r: seq<Operation>)
    requires k <= |gates|
    ensures |r| == k && forall i :: 0 <= i < k ==> r[i] == ApproveGate(gates[i].name, actor, "")
  {
    seq(k, i requires 0 <= i < k => ApproveGate(gates[i].name, actor, ""))
  }

  lemma {:induction false} ApprovalsAddUp(c: Chain, k: nat, actor: string)
    requires c.violations == [] && k <= |c.gates|
    ensures var after := AfterAll(c, ApproveFirst(c.gates, k, actor));
      && after.violations == [] && |after.gates| == |c.gates|
      && (forall i :: 0 <= i < |c.gates| ==> after.gates[i].name == c.gates[i].name)
      && (forall i :: 0 <= i < k ==> after.gates[i].status == GateApproved)
      && (0 < k == |c.gates| ==> after.status == Approved)
    decreases k, actor
  {
    if k > 0 {
      ApprovalsAddUp(c, k - 1, actor);
      var ops := ApproveFirst(c.gates, k, actor);
      assert ops[..k - 1] == ApproveFirst(c.gates, k - 1, actor);
      OneMoreApproval(AfterAll(c, ops[..k - 1]), k - 1, actor);
    }
  }

  lemma OneMoreApproval(c: Chain, k: nat, actor: string)
    requires c.violations == [] && k < |c.gates|
    requires forall i :: 0 <= i < k ==> c.gates[i].status == GateApproved
    ensures var after := Apply(c, ApproveGate(c.gates[k].name, actor, ""));
      && after.violations == [] && |after.gates| == |c.gates|
      && (forall i :: 0 <= i < |c.gates| ==> after.gates[i].name == c.gates[i].name)
      && (forall i :: 0 <= i <= k ==> after.gates[i].status == GateApproved)
      && (k + 1 == |c.gates| ==> after.status == Approved)
  {
    assert HasGate(c.gates, c.gates[k].name);
  }

  /** At every risk level, red included, approving each gate in turn clears the chain. */
  lemma EveryLevelCanBeCleared(risk: RiskLevel, actor: string)
    ensures Judged(AfterAll(NewChain(risk), ApproveFirst(InitialGates(risk), |InitialGates(risk)|, actor))) == Clear
  {
    var ops := ApproveFirst(InitialGates(risk), |InitialGates(risk)|, actor);
    ApprovalsAddUp(NewChain(risk), |InitialGates(risk)|, actor);
    EveryRunIsSound(risk, ops);
    ClearIffApproved(AfterAll(NewChain(risk), ops));
  }
}

/** The approval chain and the gatekeeper that holds one for each task. */
module Approval {
  import opened Common
  import opened ApprovalState

  /** The gates with every one of this name exchanged. */
  ghost function SignedGates(gates: seq<Gate>, name: string, signed: Gate): seq<Gate> {
    seq(|gates|, i requires 0 <= i < |gates| => if gates[i].name == name then signed else gates[i])
  }

  class ApprovalChain {
    var gates: seq<Gate>
    var status: Status
    var violations: seq<string>
    var history: seq<Event>

    function View(): Chain
      reads this
    {
      Chain(gates, status, violations, history)
    }

    constructor (risk: RiskLevel)
      ensures View() == NewChain(risk)
      ensures |gates| == match risk case Green => 3 case Yellow => 4 case Orange => 5 case _ => 6
      ensures forall i :: 0 <= i < |gates| ==> gates[i] == Gate(GateNames[i], GatePending, None, "")
      ensures status == Pending && violations == [] && history == []
    {
      InitialGatesMeaning(risk);
      var initial := [FreshGate("Automated"), FreshGate("Aegis"), FreshGate("Iris")];
      if risk in {Yellow, Orange, Red, Critical} {
        initial := initial + [FreshGate("Reviewer")];
      }
      if risk in {Orange, Red, Critical} {
        initial := initial + [FreshGate("Human")];
      }
      if risk in {Red, Critical} {
        initial := initial + [FreshGate("EmergencyBoard")];
      }
      gates, status, violations, history := initial, Pending, [], [];
    }

    method LogEvent(kind: Kind, actor: string, detail: string)
      modifies this`history
      ensures history == old(history) + [Event(kind, actor, detail)]
      ensures EventNames(history) == EventNames(old(history)) + [EventName(kind)]
    {
      EventNamesAppend(history, Event(kind, actor, detail));
      history := history + [Event(kind, actor, detail)];
    }

    /** Every gate in turn must be approved; a violation blocks at once. */
    method MayProceed() returns (r: bool)
      ensures r == CanProceed(View())
      ensures r <==> violations == [] && forall i :: 0 <= i < |gates| ==> gates[i].status == GateApproved
    {
      if violations != [] {
        return false;
      }
      for i := 0 to |gates|
        invariant forall j :: 0 <= j < i ==> gates[j].status == GateApproved
      {
        if gates[i].status != GateApproved {
          return false;
        }
      }
      return true;
    }

    method MarkAutomatedPass()
      requires HasGate(gates, "Automated")
      modifies this
      ensures View() == Apply(old(View()), Operation.MarkAutomatedPass)
      ensures var signed := Gate("Automated", GateApproved, Some("system"), "Automated pre-flight checks passed");
        gates == SignedGates(old(gates), "Automated", signed)
      ensures status == old(status) && violations == old(violations)
      ensures history == old(history) + [Event(AutomatedPass, "System", "")]
      ensures EventNames(history) == EventNames(old(history)) + ["automated_pass"]
    {
      gates := Signed(gates, "Automated", GateApproved, "system", "Automated pre-flight checks passed");
      LogEvent(AutomatedPass, "System", "");
    }

    method ApproveGate(name: string, actor: string, reason: string) returns (found: bool)
      modifies this
      ensures found == HasGate(old(gates), name)
      ensures View() == Apply(old(View()), Operation.ApproveGate(name, actor, reason))
      ensures found <==> exists i :: 0 <= i < |old(gates)| && old(gates)[i].name == name
      ensures violations == old(violations) && (!found ==> View() == old(View()))
      ensures found ==> gates == SignedGates(old(gates), name, Gate(name, GateApproved, Some(actor), reason))
      ensures found ==>
        var cleared := violations == [] && forall i :: 0 <= i < |gates| ==> gates[i].status == GateApproved;
        && status == (if cleared then Approved else old(status))
        && history == old(history) + [Event(ApprovedGate(name), actor, "")] +
             (if cleared then [Event(WorkflowApproved, actor, "")] else [])
        && EventNames(history) == EventNames(old(history)) + ["gate_approved:" + name] +
             (if cleared then ["workflow_approved"] else [])
    {
      if !HasGate(gates, name) {
        return false;
      }
      gates := Signed(gates, name, GateApproved, actor, reason);
      LogEvent(ApprovedGate(name), actor, "");
      var proceed := MayProceed();
      if proceed {
        status := Approved;
        LogEvent(WorkflowApproved, actor, "");
      }
      return true;
    }

    method RejectGate(name: string, actor: string, reason: string) returns (found: bool)
      modifies this
      ensures found == HasGate(old(gates), name)
      ensures View() == Apply(old(View()), Operation.RejectGate(name, actor, reason))
      ensures found <==> exists i :: 0 <= i < |old(gates)| && old(gates)[i].name == name
      ensures violations == old(violations) && (!found ==> View() == old(View()))
      ensures found ==>
        && gates == SignedGates(old(gates), name, Gate(name, GateRejected, Some(actor), reason)) && status == Rejected
        && history == old(history) + [Event(RejectedGate(name), actor, "")]
        && EventNames(history) == EventNames(old(history)) + ["gate_rejected:" + name]
    {
      if !HasGate(gates, name) {
        return false;
      }
      gates := Signed(gates, name, GateRejected, actor, reason);
      status := Rejected;
      LogEvent(RejectedGate(name), actor, "");
      return true;
    }

    method AddNoGoViolation(violation: string)
      modifies this
      ensures View() == Apply(old(View()), Operation.AddNoGoViolation(violation))
      ensures gates == old(gates) && status == Blocked && violations == old(violations) + [violation]
      ensures history == old(history) + [Event(NoGoViolation, "system", violation)]
      ensures EventNames(history) == EventNames(old(history)) + ["no_go_violation"]
    {
      violations := violations + [violation];
      status := Blocked;
      LogEvent(NoGoViolation, "system", violation);
    }

    method Escalate(reason: string)
      modifies this
      ensures View() == Apply(old(View()), Operation.Escalate(reason))
      ensures gates == old(gates) +
        if exists i :: 0 <= i < |old(gates)| && old(gates)[i].name == "EmergencyBoard" then []
        else [Gate("EmergencyBoard", GatePending, None, "")]
      ensures status == Escalated && violations == old(violations)
      ensures history == old(history) + [Event(Escalation, "system", reason)]
      ensures EventNames(history) == EventNames(old(history)) + ["escalated"]
    {
      if !HasGate(gates, "EmergencyBoard") {
        gates := gates + [FreshGate("EmergencyBoard")];
      }
      status := Escalated;
      LogEvent(Escalation, "system", reason);
    }
  }

  class ThemisApprovalGate {
    var approvals: map<string, ApprovalChain>

    constructor ()
      ensures approvals == map[]
    {
      approvals := map[];
    }

    /** A new chain replaces any the task had, violations and all. */
    method CreateApprovalChain(task: string, risk: RiskLevel) returns (chain: ApprovalChain)
      modifies this
      ensures fresh(chain) && approvals == old(approvals)[task := chain] && chain.View() == NewChain(risk)
      ensures |chain.gates| == match risk case Green => 3 case Yellow => 4 case Orange => 5 case _ => 6
      ensures forall i :: 0 <= i < |chain.gates| ==> chain.gates[i] == Gate(GateNames[i], GatePending, None, "")
      ensures chain.status == Pending && chain.violations == [] && chain.history == []
    {
      chain := new ApprovalChain(risk);
      approvals := approvals[task := chain];
    }

    method CanExecute(task: string) returns (verdict: Verdict)
      ensures verdict == if task in approvals then Judged(approvals[task].View()) else NoChain
      ensures task in approvals && Sound(approvals[task].View()) ==>
        (verdict == Clear <==> approvals[task].status == Approved)
    {
      if task !in approvals {
        return NoChain;
      }
      var chain := approvals[task];
      if Sound(chain.View()) {
        ClearIffApproved(chain.View());
      }
      if chain.violations != [] {
        return HasViolations(chain.violations);
      }
      var pending := PendingGates(chain.gates);
      if pending != [] {
        return HasPending(pending);
      }
      if chain.status != Approved {
        return NotApproved(chain.status);
      }
      return Clear;
    }

    /** Blocks a task, making a critical chain for it if it has none. */
    method BlockNogoOperation(task: string, operation: string, reason: string) returns (chain: ApprovalChain)
      modifies this, if task in approvals then {approvals[task]} else {}
      ensures task in approvals && approvals[task] == chain && chain.status == Blocked
      ensures if task in old(approvals) then approvals == old(approvals) && chain == old(approvals[task])
              else approvals == old(approvals)[task := chain] && fresh(chain)
      ensures chain.violations ==
        (if task in old(approvals) then old(approvals[task].violations) else []) + [operation + ": " + reason]
      ensures chain.View() == Apply(if task in old(approvals) then old(approvals[task].View()) else NewChain(Critical),
                                    Operation.AddNoGoViolation(operation + ": " + reason))
    {
      if task in approvals {
        chain := approvals[task];
      } else {
        chain := CreateApprovalChain(task, Critical);
      }
      chain.AddNoGoViolation(operation + ": " + reason);
      chain.status := Blocked;
    }
  }
}
