/** The release lifecycle of a workload: gates, approval by an independent actor, and its history. */
module Factory {
  import opened Common

  datatype Kind = Model | Llm | Agent | Rag

  datatype Stage = Draft | Validated | Approved | Provisioned | Released | Suspended | Retired

  datatype GateStatus = Pass | Fail

  datatype Slo = Slo(availability: real, latencyP95: int, errorRate: real) {
    predicate Valid() {
      0.9 <= availability < 1.0 && latencyP95 > 0 && 0.0 <= errorRate <= 0.1
    }
  }

  datatype Spec = Spec(name: string, kind: Kind, owner: string, tenant: string, environment: string,
      artifactDigest: string, classification: string, slo: Slo, requiresGpu: bool, internetEgress: bool) {
    /** The checks of `__post_init__`. */
    predicate Valid() {
      && IsIdentifier(name) && slo.Valid()
      && environment in ["development", "test", "production"]
      && classification in ["public", "internal", "confidential", "restricted"]
      && |artifactDigest| >= 7 && artifactDigest[..7] == "sha256:"
    }
  }

  /** A lower-case letter followed by 2 to 62 lower-case letters, digits or hyphens. */
  predicate IsIdentifier(s: string) {
    && 3 <= |s| <= 63 && 'a' <= s[0] <= 'z'
    && forall i :: 1 <= i < |s| ==> 'a' <= s[i] <= 'z' || '0' <= s[i] <= '9' || s[i] == '-'
  }

  datatype GateResult = GateResult(gate: string, status: GateStatus, evidence: string, evaluator: string,
                                   evidenceDigest: string, signingKeyId: string, signature: string, measuredAt: int)

  /** A history entry; stages appear by their names. */
  datatype Entry = Entry(from: string, to: string, actor: string, reason: string, at: int)

  function StageName(s: Stage): string {
    match s
    case Draft => "draft"
    case Validated => "validated"
    case Approved => "approved"
    case Provisioned => "provisioned"
    case Released => "released"
    case Suspended => "suspended"
    case Retired => "retired"
  }

  datatype Workload = Workload(spec: Spec, id: string, stage: Stage, gates: map<string, GateResult>,
                               approvedBy: Option<string>, policyDigest: Option<string>, history: seq<Entry>)

  const REQUIRED_GATES: seq<string> := ["cost", "observability", "quality", "reliability", "rollback", "security"]

  function NewWorkload(spec: Spec, id: string): Workload {
    Workload(spec, id, Draft, map[], None, None, [])
  }

  predicate Passed(gates: map<string, GateResult>, gate: string) {
    gate in gates && gates[gate].status == Pass
  }

  function Failing(gates: map<string, GateResult>, required: seq<string>): (r: seq<string>)
    ensures forall g :: g in r <==> g in required && !Passed(gates, g)
  {
    if required == [] then []
    else (if Passed(gates, required[0]) then [] else [required[0]]) + Failing(gates, required[1..])
  }

  function Evaluators(gates: map<string, GateResult>): set<string> {
    set g | g in gates :: gates[g].evaluator
  }

  function Moved(w: Workload, target: Stage, actor: string, reason: string, at: int): Workload {
    w.(history := w.history + [Entry(StageName(w.stage), StageName(target), actor, reason, at)], stage := target)
  }

  datatype Operation =
    | RecordGate(result: GateResult)
    | Approve(actor: string, policyDigest: string, at: int)
    | Provision(actor: string, at: int)
    | Release(actor: string, at: int)
    | Suspend(actor: string, reason: string, at: int)
    | Retire(actor: string, reason: string, at: int)

  function ApprovalReason(policyDigest: string): string {
    "all required gates passed" + (if policyDigest != "" then "; policy=" + policyDigest else "")
  }

  predicate Permitted(w: Workload, op: Operation) {
    match op
    case RecordGate(result) => w.stage in [Draft, Validated] && result.gate in REQUIRED_GATES
    case Approve(actor, _, _) =>
      && w.stage == Validated && Failing(w.gates, REQUIRED_GATES) == []
      && actor != w.spec.owner && actor !in Evaluators(w.gates)
    case Provision(_, _) => w.stage == Approved
    case Release(_, _) => w.stage == Provisioned
    case Suspend(_, reason, _) => w.stage == Released && !Blank(reason)
    case Retire(_, reason, _) => w.stage in [Released, Suspended] && !Blank(reason)
  }

  /** A permitted operation's effect; an operation that is not permitted raises and changes nothing. */
  function Applied(w: Workload, op: Operation): Workload
    requires Permitted(w, op)
  {
    match op
    case RecordGate(result) => w.(gates := w.gates[result.gate := result], stage := Validated)
    case Approve(actor, digest, at) =>
      Moved(w.(approvedBy := Some(actor), policyDigest := if digest == "" then None else Some(digest)), Approved, actor,
          ApprovalReason(digest), at)
    case Provision(actor, at) => Moved(w, Provisioned, actor, "platform resources provisioned", at)
    case Release(actor, at) => Moved(w, Released, actor, "workload released", at)
    case Suspend(actor, reason, at) => Moved(w, Suspended, actor, reason, at)
    case Retire(actor, reason, at) => Moved(w, Retired, actor, reason, at)
  }

  class FactoryWorkload {
    const spec: Spec
    const id: string
    var stage: Stage
    var gates: map<string, GateResult>
    var approvedBy: Option<string>
    var policyDigest: Option<string>
    var history: seq<Entry>

    constructor (spec: Spec, id: string)
      ensures Snapshot() == NewWorkload(spec, id)
    {
      this.spec, this.id := spec, id;
      stage, gates, approvedBy, policyDigest, history := Draft, map[], None, None, [];
    }

    function Snapshot(): Workload
      reads this
    {
      Workload(spec, id, stage, gates, approvedBy, policyDigest, history)
    }

    /** `self` after `op` when the call returns, and as it was when it raises. */
    twostate predicate Does(op: Operation, ok: bool)
      reads this
    {
      && (ok <==> Permitted(old(Snapshot()), op))
      && Snapshot() == (if Permitted(old(Snapshot()), op) then Applied(old(Snapshot()), op) else old(Snapshot()))
    }

    method RecordGate(result: GateResult) returns (ok: bool)
      modifies this
      ensures Does(Operation.RecordGate(result), ok)
    {
      if stage !in [Draft, Validated] || result.gate !in REQUIRED_GATES {
        return false;
      }
      gates, stage := gates[result.gate := result], Validated;
      return true;
    }

    method MissingOrFailedGates() returns (failures: seq<string>)
      ensures forall g :: g in failures <==> g in REQUIRED_GATES && !Passed(gates, g)
    {
      failures := Failing(gates, REQUIRED_GATES);
    }

    method Approve(actor: string, digest: string, at: int) returns (ok: bool)
      modifies this
      ensures Does(Operation.Approve(actor, digest, at), ok)
    {
      var failures := Failing(gates, REQUIRED_GATES);
      if stage != Validated || failures != [] || actor == spec.owner || actor in Evaluators(gates) {
        return false;
      }
      approvedBy := Some(actor);
      policyDigest := if digest == "" then None else Some(digest);
      Move(Stage.Approved, actor, ApprovalReason(digest), at);
      return true;
    }

    method Provision(actor: string, at: int) returns (ok: bool)
      modifies this
      ensures Does(Operation.Provision(actor, at), ok)
    {
      if stage != Stage.Approved {
        return false;
      }
      Move(Provisioned, actor, "platform resources provisioned", at);
      return true;
    }

    method Release(actor: string, at: int) returns (ok: bool)
      modifies this
      ensures Does(Operation.Release(actor, at), ok)
    {
      if stage != Provisioned {
        return false;
      }
      Move(Released, actor, "workload released", at);
      return true;
    }

    method Suspend(actor: string, reason: string, at: int) returns (ok: bool)
      modifies this
      ensures Does(Operation.Suspend(actor, reason, at), ok)
    {
      if stage != Released || Blank(reason) {
        return false;
      }
      Move(Suspended, actor, reason, at);
      return true;
    }

    method Retire(actor: string, reason: string, at: int) returns (ok: bool)
      modifies this
      ensures Does(Operation.Retire(actor, reason, at), ok)
    {
      if stage !in [Released, Suspended] || Blank(reason) {
        return false;
      }
      Move(Retired, actor, reason, at);
      return true;
    }

    method Move(target: Stage, actor: string, reason: string, at: int)
      modifies this
      ensures Snapshot() == Moved(old(Snapshot()), target, actor, reason, at)
    {
      history := history + [Entry(StageName(stage), StageName(target), actor, reason, at)];
      stage := target;
    }
  }

  // ---- What every workload the domain can produce satisfies -------------------------------------

  predicate PastApproval(stage: Stage) {
    stage != Draft && stage != Validated
  }

  /** Consecutive entries meet, starting from `validated` and ending at the current stage. */
  ghost predicate Unbroken(w: Workload) {
    if !PastApproval(w.stage) then w.history == []
    else
      && w.history != [] && w.history[0].from == StageName(Validated)
         && w.history[|w.history| - 1].to == StageName(w.stage)
      && forall i :: 0 <= i < |w.history| - 1 ==> w.history[i].to == w.history[i + 1].from
  }

  ghost predicate Governed(w: Workload) {
    PastApproval(w.stage) ==>
      && (forall g :: g in REQUIRED_GATES ==> Passed(w.gates, g))
      && w.approvedBy.Some? && w.approvedBy.value != w.spec.owner && w.approvedBy.value !in Evaluators(w.gates)
  }

  ghost predicate Sound(w: Workload) {
    && Unbroken(w) && Governed(w)
    && (forall g :: g in w.gates ==> g in REQUIRED_GATES && w.gates[g].gate == g)
    && (w.stage == Draft ==> w.gates == map[]) && (!PastApproval(w.stage) ==> w.approvedBy.None?)
  }

  lemma AppliedKeepsSound(w: Workload, op: Operation)
    requires Sound(w) && Permitted(w, op)
    ensures Sound(Applied(w, op))
  {
    var w' := Applied(w, op);
    if !op.RecordGate? {
      assert w'.history == w.history + [w'.history[|w.history|]];
    }
  }

  /** `w'` is `w` after one permitted operation. */
  ghost predicate Succeeds(w: Workload, w': Workload) {
    exists op :: Permitted(w, op) && w' == Applied(w, op)
  }

  /** Gates, approver and policy as they were, and no history lost. */
  ghost predicate SettledFrom(w: Workload, w': Workload) {
    PastApproval(w'.stage) && w'.gates == w.gates && w'.approvedBy == w.approvedBy && w'.policyDigest == w.policyDigest
        && w.history <= w'.history
  }

  /** Once approved, gates, approver and past history are fixed and the stage never falls back. */
  lemma ApprovalIsFinal(w: Workload, op: Operation)
    requires Permitted(w, op) && PastApproval(w.stage)
    ensures SettledFrom(w, Applied(w, op)) && Applied(w, op).stage != w.stage
  {
  }

  lemma SuccessionKeeps(w: Workload, w': Workload)
    requires Succeeds(w, w') && Sound(w)
    ensures Sound(w') && w'.id == w.id && w'.spec == w.spec
    ensures PastApproval(w.stage) ==> SettledFrom(w, w')
  {
    var op :| Permitted(w, op) && w' == Applied(w, op);
    AppliedKeepsSound(w, op);
    if PastApproval(w.stage) {
      ApprovalIsFinal(w, op);
    }
  }

  // ---- Stored versions ----------------------------------------------------------------------------

  /** Under each id, the workloads stored as version 1, 2, ...; a row holds the last of them. */
  type Versions = map<string, seq<Workload>>

  function Created(v: Versions, w: Workload): Versions {
    if w.id in v then v else v[w.id := [w]]
  }

  /** The tenant column is the first version's. */
  predicate OwnedBy(v: Versions, id: string, tenant: string) {
    id in v && v[id] != [] && v[id][0].spec.tenant == tenant
  }

  function Latest(v: Versions, id: string, tenant: string): Option<(Workload, nat)> {
    if OwnedBy(v, id, tenant) then Some((v[id][|v[id]| - 1], |v[id]|)) else None
  }

  predicate Current(v: Versions, w: Workload, version: int) {
    OwnedBy(v, w.id, w.spec.tenant) && |v[w.id]| == version
  }

  /** The conditional update: one more version when the expected one is still the last. */
  function Saved(v: Versions, w: Workload, version: int): Versions {
    if Current(v, w, version) then v[w.id := v[w.id] + [w]] else v
  }
}
