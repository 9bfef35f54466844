/**
 Governed cluster changes: a proposal is approved by somebody else, claimed once, checked and
 written. Digests are injective; each conditional UPDATE of the store is one atomic step.
 */
module Sre {
  import opened Common

  const APPROVAL_MINUTES: int := 15
  const TICKS_PER_MINUTE: int := 60_000_000
  const MAXIMUM_REPLICAS: int := 100

  datatype ActionType = ScaleDeployment | RestartDeployment

  datatype Parameter = Whole(number: int) | Text(text: string)

  datatype Proposal = Proposal(id: string, action: ActionType, cluster: string, namespace: string, resourceName: string,
                               resourceUid: string, resourceVersion: string, requestedBy: string, rationale: string,
                               rollback: string, parameters: map<string, Parameter>, createdAt: int)

  /** SHA-256 over the canonical payload, taken as injective. */
  datatype Digest = Digest(payload: Proposal)

  datatype Approval = Approval(proposalId: string, proposalDigest: Digest, approvedBy: string, approvedAt: int,
      expiresAt: int)

  datatype Status = Proposed | Approved | Executing | Executed | Failed

  datatype Row = Row(payload: Proposal, digest: Digest, status: Status, approval: Option<Approval>)

  type Table = map<string, Row>

  function NewApproval(p: Proposal, approver: string, now: int): Approval {
    Approval(p.id, Digest(p), approver, now, now + APPROVAL_MINUTES * TICKS_PER_MINUTE)
  }

  // The four writes of the store; None is the exception each raises.

  function Inserted(t: Table, p: Proposal): Option<Table> {
    if p.id in t then None else Some(t[p.id := Row(p, Digest(p), Proposed, None)])
  }

  function WithApproval(t: Table, a: Approval): Option<Table> {
    if a.proposalId in t && t[a.proposalId].digest == a.proposalDigest && t[a.proposalId].status == Proposed
    then Some(t[a.proposalId := t[a.proposalId].(status := Approved, approval := Some(a))]) else None
  }

  function Claimed(t: Table, id: string): Option<Table> {
    if id in t && t[id].status == Approved then Some(t[id := t[id].(status := Executing)]) else None
  }

  function Finished(t: Table, id: string, succeeded: bool): Table {
    if id in t && t[id].status == Executing then t[id := t[id].(status := if succeeded then Executed else Failed)]
        else t
  }

  /** No row but that of `id` differs, and none is lost. */
  ghost predicate Others(t: Table, t': Table, id: string) {
    && t.Keys <= t'.Keys <= t.Keys + {id}
    && forall j :: j in t && j != id ==> t'[j] == t[j]
  }

  datatype WriterCall =
    | ScaleCall(namespace: string, name: string, replicas: int, uid: string, version: string)
    | RestartCall(namespace: string, name: string, uid: string, version: string)

  /** `parse` is what int() makes of a string parameter. */
  datatype Policy = Policy(managed: set<string>, parse: string -> Option<int>)

  function Replicas(policy: Policy, p: Proposal): Option<int> {
    if "replicas" !in p.parameters then Some(-1)
    else match p.parameters["replicas"]
      case Whole(n) => Some(n)
      case Text(s) => policy.parse(s)
  }

  datatype Violation =
    | OutsideManagedBoundary
    | RollbackMissing
    | ApprovalMismatch
    | SelfApproval
    | ApprovalExpired
    | ExecutorNotIndependent
    | ReplicasNotANumber
    | ReplicasOutOfRange

  /** The guard sequence of the executor, ending in the writer call it makes. */
  function Guarded(policy: Policy, p: Proposal, a: Approval, actor: string, now: int): Result<WriterCall, Violation> {
    if p.namespace !in policy.managed then Failure(OutsideManagedBoundary)
    else if Blank(p.rollback) then Failure(RollbackMissing)
    else if a.proposalId != p.id || a.proposalDigest != Digest(p)
         then Failure(ApprovalMismatch)
    else if a.approvedBy == p.requestedBy then Failure(SelfApproval)
    else if a.expiresAt <= now then Failure(ApprovalExpired)
    else if actor == p.requestedBy || actor == a.approvedBy
         then Failure(ExecutorNotIndependent)
    else match p.action
      case ScaleDeployment =>
        var replicas := Replicas(policy, p);
        if replicas.None? then Failure(ReplicasNotANumber)
        else if !(0 <= replicas.value <= MAXIMUM_REPLICAS) then Failure(ReplicasOutOfRange)
        else Success(ScaleCall(p.namespace, p.resourceName, replicas.value, p.resourceUid, p.resourceVersion))
      case RestartDeployment => Success(RestartCall(p.namespace, p.resourceName, p.resourceUid, p.resourceVersion))
  }

  /** What the documentation asks of every write: approved, current, independent and bounded. */
  ghost predicate Sanctioned(policy: Policy, p: Proposal, a: Approval, actor: string, at: int, call: WriterCall) {
    && a.proposalId == p.id && a.proposalDigest == Digest(p) && at < a.expiresAt
    && p.requestedBy != a.approvedBy && actor != p.requestedBy && actor != a.approvedBy
    && p.namespace in policy.managed && !Blank(p.rollback)
    && match call
       case ScaleCall(namespace, name, replicas, uid, version) =>
         && p.action.ScaleDeployment? && namespace == p.namespace && name == p.resourceName
         && uid == p.resourceUid && version == p.resourceVersion
         && Replicas(policy, p) == Some(replicas) && 0 <= replicas <= MAXIMUM_REPLICAS
       case RestartCall(namespace, name, uid, version) =>
         && p.action.RestartDeployment? && namespace == p.namespace && name == p.resourceName
         && uid == p.resourceUid && version == p.resourceVersion
  }

  /** The guards let a call through exactly when it is sanctioned. */
  lemma GuardsAreExact(policy: Policy, p: Proposal, a: Approval, actor: string, at: int, call: WriterCall)
    ensures Guarded(policy, p, a, actor, at) == Success(call) <==> Sanctioned(policy, p, a, actor, at, call)
  {
  }

  class SREStore {
    var rows: Table

    constructor ()
      ensures rows == map[]
    {
      rows := map[];
    }

    /** An INSERT fails on an id that is there. */
    method SaveProposal(p: Proposal) returns (ok: bool)
      modifies this
      ensures ok <==> p.id !in old(rows)
      ensures if ok then Some(rows) == Inserted(old(rows), p) else rows == old(rows)
      ensures Others(old(rows), rows, p.id) && p.id in rows
    {
      ok := p.id !in rows;
      if ok {
        rows := rows[p.id := Row(p, Digest(p), Proposed, None)];
      }
    }

    method GetProposal(id: string) returns (p: Option<Proposal>)
      ensures p == if id in rows then Some(rows[id].payload) else None
    {
      p := if id in rows then Some(rows[id].payload) else None;
    }

    /** Approves exactly a proposed row with this digest; it keeps its proposal and takes no other approval. */
    method Approve(a: Approval) returns (ok: bool)
      modifies this
      ensures var id := a.proposalId;
              && (ok <==> id in old(rows) && old(rows)[id].digest == a.proposalDigest
                          && old(rows)[id].status == Proposed)
              && Others(old(rows), rows, id) && (!ok ==> rows == old(rows))
              && (ok ==> && rows[id].status == Approved && rows[id].approval == Some(a)
                         && rows[id].payload == old(rows)[id].payload && rows[id].digest == old(rows)[id].digest
                         && forall b: Approval :: b.proposalId == id ==> WithApproval(rows, b).None?)
      ensures if ok then Some(rows) == WithApproval(old(rows), a) else WithApproval(old(rows), a).None?
    {
      var id := a.proposalId;
      ok := false;
      if id in rows && rows[id].digest == a.proposalDigest && rows[id].status == Proposed {
        var row := rows[id];
        rows := rows[id := Row(row.payload, row.digest, Approved, Some(a))];
        ok := true;
      }
    }

    method GetApproval(id: string) returns (a: Option<Approval>)
      ensures a == if id in rows then rows[id].approval else None
    {
      a := if id in rows then rows[id].approval else None;
    }

    /** Claims exactly an approved row; nobody can claim it again. */
    method ClaimExecution(id: string) returns (ok: bool)
      modifies this
      ensures ok <==> id in old(rows) && old(rows)[id].status == Approved
      ensures Others(old(rows), rows, id) && (!ok ==> rows == old(rows))
      ensures ok ==> && rows[id].status == Executing && rows[id].approval == old(rows)[id].approval
                     && rows[id].payload == old(rows)[id].payload && rows[id].digest == old(rows)[id].digest
      ensures Claimed(rows, id).None?
      ensures if ok then Some(rows) == Claimed(old(rows), id) else Claimed(old(rows), id).None?
    {
      ok := false;
      if id in rows && rows[id].status == Approved {
        var row := rows[id];
        rows := rows[id := Row(row.payload, row.digest, Executing, row.approval)];
        ok := true;
      }
    }

    /** Ends an executing row for good, and touches no row in any other status. */
    method FinishExecution(id: string, succeeded: bool)
      modifies this
      ensures Others(old(rows), rows, id)
      ensures id in old(rows) && old(rows)[id].status == Executing ==>
                && rows[id].status == (if succeeded then Executed else Failed)
                   && rows[id].approval == old(rows)[id].approval
                && rows[id].payload == old(rows)[id].payload && rows[id].digest == old(rows)[id].digest
                && Claimed(rows, id).None? && (forall again :: Finished(rows, id, again) == rows)
      ensures id !in old(rows) || old(rows)[id].status != Executing ==> rows == old(rows)
      ensures rows == Finished(old(rows), id, succeeded)
    {
      if id in rows && rows[id].status == Executing {
        var row := rows[id];
        rows := rows[id := Row(row.payload, row.digest, if succeeded then Executed else Failed, row.approval)];
      }
    }
  }

  class ChangeExecutor {
    const policy: Policy
    var writes: seq<WriterCall>

    constructor (policy: Policy)
      ensures this.policy == policy && writes == []
    {
      this.policy, writes := policy, [];
    }

    /** `writerReturns` says whether the cluster write returns or raises. */
    method Execute(p: Proposal, a: Approval, actor: string, now: int, writerReturns: bool) returns (ok: bool)
      modifies this
      ensures match Guarded(policy, p, a, actor, now)
              case Success(call) => writes == old(writes) + [call] && ok == writerReturns
              case Failure(_) => writes == old(writes) && !ok
    {
      var guarded := Guarded(policy, p, a, actor, now);
      if guarded.Failure? {
        return false;
      }
      writes := writes + [guarded.value];
      return writerReturns;
    }
  }

  class KubernetesSREService {
    const store: SREStore
    const executor: ChangeExecutor

    constructor (store: SREStore, executor: ChangeExecutor)
      ensures this.store == store && this.executor == executor
    {
      this.store, this.executor := store, executor;
    }

    /** A proposal is approved exactly when it is stored, unapproved and somebody else's. */
    method Approve(id: string, approver: string, now: int) returns (ok: bool)
      modifies store
      ensures ok <==> id in old(store.rows) && old(store.rows)[id].payload.requestedBy != approver
                      && WithApproval(old(store.rows), NewApproval(old(store.rows)[id].payload, approver, now)).Some?
      ensures if ok then Some(store.rows) == WithApproval(old(store.rows),
                         NewApproval(old(store.rows)[id].payload, approver, now))
              else store.rows == old(store.rows)
    {
      var proposal := store.GetProposal(id);
      if proposal.None? || proposal.value.requestedBy == approver {
        return false;
      }
      ok := store.Approve(NewApproval(proposal.value, approver, now));
    }

    /**
     One uninterrupted execution: the status moves to executed or failed only through a claim, and
     the writer is called only after it.
     */
    method Execute(id: string, actor: string, now: int, writerReturns: bool) returns (ok: bool)
      modifies store, executor
      ensures var t := old(store.rows);
              if id !in t || t[id].approval.None? || t[id].status != Approved then
                !ok && store.rows == t && executor.writes == old(executor.writes)
              else
                var guarded := Guarded(executor.policy, t[id].payload, t[id].approval.value, actor, now);
                && ok == (guarded.Success? && writerReturns)
                && store.rows == t[id := t[id].(status := if ok then Executed else Failed)]
                && executor.writes == old(executor.writes) + (if guarded.Success? then [guarded.value] else [])
    {
      var proposal := store.GetProposal(id);
      var approval := store.GetApproval(id);
      if proposal.None? || approval.None? {
        return false;
      }
      var claimed := store.ClaimExecution(id);
      if !claimed {
        return false;
      }
      ok := executor.Execute(proposal.value, approval.value, actor, now, writerReturns);
      store.FinishExecution(id, ok);
    }
  }
}
