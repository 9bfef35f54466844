/**
 Any number of proposers, approvers and executors, interleaved at every store access and writer
 call, any of which may stop for good at any point.
 */
module SreRuns {
  import opened Common
  import opened Sre

  /** Where one client program stands; Gone is finished, refused or crashed. */
  datatype Client =
    | Approving(proposal: Proposal, approver: string)
    | Fetched(proposal: Proposal, actor: string)
    | Ready(proposal: Proposal, approval: Approval, actor: string)
    | Holding(proposal: Proposal, approval: Approval, actor: string)
    | Reporting(id: string, succeeded: bool)
    | Gone

  datatype Write = Write(proposal: Proposal, approval: Approval, actor: string, at: int, call: WriterCall)

  datatype State = State(rows: Table, clients: seq<Client>, writes: seq<Write>)

  datatype Event =
    | Propose(proposal: Proposal)
    | BeginApprove(id: string, approver: string)
    | Approve(client: nat, now: int)
    | BeginExecute(id: string, actor: string)
    | ReadApproval(client: nat)
    | Claim(client: nat)
    | Execute(client: nat, now: int, writerReturns: bool)
    | Report(client: nat)
    | Crash(client: nat)

  ghost predicate Enabled(s: State, e: Event) {
    match e
    case Propose(_) => true
    case BeginApprove(_, _) => true
    case BeginExecute(_, _) => true
    case Approve(c, _) => c < |s.clients| && s.clients[c].Approving?
    case ReadApproval(c) => c < |s.clients| && s.clients[c].Fetched?
    case Claim(c) => c < |s.clients| && s.clients[c].Ready?
    case Execute(c, _, _) => c < |s.clients| && s.clients[c].Holding?
    case Report(c) => c < |s.clients| && s.clients[c].Reporting?
    case Crash(c) => c < |s.clients|
  }

  ghost function Or(update: Option<Table>, otherwise: Table): Table {
    if update.Some? then update.value else otherwise
  }

  ghost function Next(policy: Policy, s: State, e: Event): State
    requires Enabled(s, e)
  {
    match e
    case Propose(p) => s.(rows := Or(Inserted(s.rows, p), s.rows))
    case BeginApprove(id, approver) =>
      if id in s.rows && s.rows[id].payload.requestedBy != approver
      then s.(clients := s.clients + [Approving(s.rows[id].payload, approver)]) else s
    case Approve(c, now) =>
      s.(rows := Or(WithApproval(s.rows, NewApproval(s.clients[c].proposal, s.clients[c].approver, now)), s.rows),
          clients := s.clients[c := Gone])
    case BeginExecute(id, actor) =>
      if id in s.rows then s.(clients := s.clients + [Fetched(s.rows[id].payload, actor)]) else s
    case ReadApproval(c) =>
      var p := s.clients[c].proposal;
      if p.id in s.rows && s.rows[p.id].approval.Some?
      then s.(clients := s.clients[c := Ready(p, s.rows[p.id].approval.value, s.clients[c].actor)])
           else s.(clients := s.clients[c := Gone])
    case Claim(c) =>
      var r := s.clients[c];
      var claimed := Claimed(s.rows, r.proposal.id);
      s.(rows := Or(claimed, s.rows), clients := s.clients[c := if claimed.Some?
          then Holding(r.proposal, r.approval, r.actor) else Gone])
    case Execute(c, now, writerReturns) =>
      var r := s.clients[c];
      var guarded := Guarded(policy, r.proposal, r.approval, r.actor, now);
      s.(clients := s.clients[c := Reporting(r.proposal.id, guarded.Success? && writerReturns)],
         writes := if guarded.Success? then s.writes + [Write(r.proposal, r.approval, r.actor, now, guarded.value)]
             else s.writes)
    case Report(c) =>
      s.(rows := Finished(s.rows, s.clients[c].id, s.clients[c].succeeded), clients := s.clients[c := Gone])
    case Crash(c) => s.(clients := s.clients[c := Gone])
  }

  ghost predicate StepAt(policy: Policy, states: seq<State>, events: seq<Event>, i: nat)
    requires |states| == |events| + 1 && i < |events|
  {
    Enabled(states[i], events[i]) && states[i + 1] == Next(policy, states[i], events[i])
  }

  ghost predicate Run(policy: Policy, states: seq<State>, events: seq<Event>) {
    && |states| == |events| + 1 && states[0] == State(map[], [], [])
    && forall i: nat :: i < |events| ==> StepAt(policy, states, events, i)
  }

  ghost function CountWrites(writes: seq<Write>, id: string): nat {
    if writes == [] then 0
    else CountWrites(writes[..|writes| - 1], id) + (if writes[|writes| - 1].proposal.id == id then 1 else 0)
  }

  /** The claim on `id` is this client's: it may call the writer, or has done and must report. */
  ghost predicate Owns(k: Client, id: string) {
    (k.Holding? && k.proposal.id == id) || (k.Reporting? && k.id == id)
  }

  ghost predicate RowSound(rows: Table, id: string)
    requires id in rows
  {
    var r := rows[id];
    && r.payload.id == id && r.digest == Digest(r.payload)
    && (r.approval.None? <==> r.status == Proposed)
    && (r.approval.Some? ==> r.approval.value.proposalId == id && r.approval.value.proposalDigest == r.digest
                             && r.approval.value.approvedBy != r.payload.requestedBy)
  }

  ghost predicate Matches(rows: Table, p: Proposal, a: Approval) {
    p.id in rows && rows[p.id].payload == p && rows[p.id].approval == Some(a)
  }

  ghost predicate ClientSound(s: State, k: Client) {
    match k
    case Approving(p, approver) => p.id in s.rows && s.rows[p.id].payload == p && p.requestedBy != approver
    case Fetched(p, _) => p.id in s.rows && s.rows[p.id].payload == p
    case Ready(p, a, _) => Matches(s.rows, p, a)
    case Holding(p, a, _) => Matches(s.rows, p, a) && s.rows[p.id].status == Executing
        && CountWrites(s.writes, p.id) == 0
    case Reporting(id, succeeded) =>
      id in s.rows && s.rows[id].status == Executing && (succeeded ==> CountWrites(s.writes, id) == 1)
    case Gone => true
  }

  ghost predicate WritesSound(rows: Table, writes: seq<Write>, id: string) {
    && CountWrites(writes, id) <= 1
    && (id !in rows || rows[id].status == Proposed || rows[id].status == Approved ==> CountWrites(writes, id) == 0)
    && (id in rows && rows[id].status == Executed ==> CountWrites(writes, id) == 1)
  }

  ghost predicate Invariant(policy: Policy, s: State) {
    && (forall id :: id in s.rows ==> RowSound(s.rows, id))
    && (forall c :: 0 <= c < |s.clients| ==> ClientSound(s, s.clients[c]))
    && (forall c, d, id :: 0 <= c < d < |s.clients| && Owns(s.clients[c], id) ==> !Owns(s.clients[d], id))
    && (forall id :: WritesSound(s.rows, s.writes, id))
    && (forall i :: 0 <= i < |s.writes| ==>
          var w := s.writes[i];
          Matches(s.rows, w.proposal, w.approval) && Sanctioned(policy, w.proposal, w.approval, w.actor, w.at, w.call))
  }

  lemma ProposeKeeps(policy: Policy, s: State, p: Proposal)
    requires Invariant(policy, s)
    ensures Invariant(policy, Next(policy, s, Propose(p)))
  {
    var s' := Next(policy, s, Propose(p));
    if s' != s {
      forall id | id in s'.rows
        ensures RowSound(s'.rows, id)
      {
        assert id != p.id ==> RowSound(s.rows, id);
      }
      forall c | 0 <= c < |s'.clients|
        ensures ClientSound(s', s'.clients[c])
      {
        assert ClientSound(s, s.clients[c]);
      }
      forall id
        ensures WritesSound(s'.rows, s'.writes, id)
      {
        assert WritesSound(s.rows, s.writes, id);
      }
    }
  }

  /** Client c moves to k while nothing else changes. */
  lemma MoveKeeps(policy: Policy, s: State, c: nat, k: Client)
    requires Invariant(policy, s) && c < |s.clients| && ClientSound(s, k)
    requires forall id :: Owns(k, id) ==> Owns(s.clients[c], id)
    ensures Invariant(policy, s.(clients := s.clients[c := k]))
  {
    var s' := s.(clients := s.clients[c := k]);
    forall d | 0 <= d < |s'.clients|
      ensures ClientSound(s', s'.clients[d])
    {
      assert ClientSound(s, s.clients[d]);
    }
  }

  lemma JoinKeeps(policy: Policy, s: State, k: Client)
    requires Invariant(policy, s) && ClientSound(s, k) && forall id :: !Owns(k, id)
    ensures Invariant(policy, s.(clients := s.clients + [k]))
  {
    var s' := s.(clients := s.clients + [k]);
    forall d | 0 <= d < |s'.clients|
      ensures ClientSound(s', s'.clients[d])
    {
      if d < |s.clients| {
        assert ClientSound(s, s.clients[d]);
      }
    }
  }

  /** One row moves on, by client c, which becomes k; nobody else owns the row. */
  ghost predicate RowMoves(s: State, s': State, id: string, r: Row, c: nat, k: Client) {
    && id in s.rows && c < |s.clients| && s' == State(s.rows[id := r], s.clients[c := k], s.writes)
    && r.payload == s.rows[id].payload && (s.rows[id].approval.Some? ==> r.approval == s.rows[id].approval)
    && (forall d :: 0 <= d < |s.clients| && d != c ==> !Owns(s.clients[d], id))
    && (forall j :: Owns(k, j) ==> j == id)
  }

  lemma RowKeepsClients(policy: Policy, s: State, s': State, id: string, r: Row, c: nat, k: Client)
    requires Invariant(policy, s) && RowMoves(s, s', id, r, c, k) && ClientSound(s', k)
    ensures forall d :: 0 <= d < |s'.clients| ==> ClientSound(s', s'.clients[d])
  {
    forall d | 0 <= d < |s'.clients|
      ensures ClientSound(s', s'.clients[d])
    {
      assert ClientSound(s, s.clients[d]);
      if d != c {
        assert !Owns(s.clients[d], id);
      }
    }
  }

  lemma RowKeeps(policy: Policy, s: State, s': State, id: string, r: Row, c: nat, k: Client)
    requires Invariant(policy, s) && RowMoves(s, s', id, r, c, k)
    requires RowSound(s'.rows, id) && ClientSound(s', k) && WritesSound(s'.rows, s'.writes, id)
    ensures Invariant(policy, s')
  {
    RowKeepsClients(policy, s, s', id, r, c, k);
    forall j | j in s'.rows
      ensures RowSound(s'.rows, j)
    {
      assert j != id ==> RowSound(s.rows, j);
    }
    forall j
      ensures WritesSound(s'.rows, s'.writes, j)
    {
      assert WritesSound(s.rows, s.writes, j);
    }
  }

  /** Whoever owns a proposal has it executing, so nobody owns one in another status. */
  lemma OwnedIsExecuting(policy: Policy, s: State, id: string)
    requires Invariant(policy, s)
    ensures id !in s.rows || s.rows[id].status != Executing ==> forall d :: 0 <= d < |s.clients| ==>
              !Owns(s.clients[d], id)
  {
    forall d | 0 <= d < |s.clients| && Owns(s.clients[d], id)
      ensures id in s.rows && s.rows[id].status == Executing
    {
      assert ClientSound(s, s.clients[d]);
    }
  }

  lemma ApproveKeeps(policy: Policy, s: State, e: Event)
    requires Invariant(policy, s) && Enabled(s, e) && e.Approve?
    ensures Invariant(policy, Next(policy, s, e))
  {
    var k, s' := s.clients[e.client], Next(policy, s, e);
    assert ClientSound(s, k);
    var id, a := k.proposal.id, NewApproval(k.proposal, k.approver, e.now);
    assert RowSound(s.rows, id) && WritesSound(s.rows, s.writes, id);
    if WithApproval(s.rows, a).Some? {
      OwnedIsExecuting(policy, s, id);
      RowKeeps(policy, s, s', id, s.rows[id].(status := Approved, approval := Some(a)), e.client, Gone);
    } else {
      MoveKeeps(policy, s, e.client, Gone);
    }
  }

  lemma ClaimKeeps(policy: Policy, s: State, e: Event)
    requires Invariant(policy, s) && Enabled(s, e) && e.Claim?
    ensures Invariant(policy, Next(policy, s, e))
  {
    var k, s' := s.clients[e.client], Next(policy, s, e);
    assert ClientSound(s, k);
    var id := k.proposal.id;
    assert RowSound(s.rows, id) && WritesSound(s.rows, s.writes, id);
    if Claimed(s.rows, id).Some? {
      OwnedIsExecuting(policy, s, id);
      RowKeeps(policy, s, s', id, s.rows[id].(status := Executing), e.client, Holding(k.proposal, k.approval, k.actor));
    } else {
      MoveKeeps(policy, s, e.client, Gone);
    }
  }

  lemma ReportKeeps(policy: Policy, s: State, e: Event)
    requires Invariant(policy, s) && Enabled(s, e) && e.Report?
    ensures Invariant(policy, Next(policy, s, e))
  {
    var k, s' := s.clients[e.client], Next(policy, s, e);
    assert ClientSound(s, k);
    assert RowSound(s.rows, k.id) && WritesSound(s.rows, s.writes, k.id);
    assert Owns(k, k.id);
    RowKeeps(policy, s, s', k.id, s.rows[k.id].(status := if k.succeeded then Executed else Failed), e.client, Gone);
  }

  /** The holder of a claim writes: it is the only owner, and the write is the first. */
  lemma WriteKeeps(policy: Policy, s: State, c: nat, w: Write, k: Client)
    requires Invariant(policy, s) && c < |s.clients| && s.clients[c] == Holding(w.proposal, w.approval, w.actor)
    requires Sanctioned(policy, w.proposal, w.approval, w.actor, w.at, w.call) && k.Reporting? && k.id == w.proposal.id
    ensures Invariant(policy, State(s.rows, s.clients[c := k], s.writes + [w]))
  {
    var s', id := State(s.rows, s.clients[c := k], s.writes + [w]), w.proposal.id;
    assert ClientSound(s, s.clients[c]) && Owns(s.clients[c], id) && WritesSound(s.rows, s.writes, id);
    assert s'.writes[..|s.writes|] == s.writes;
    assert CountWrites(s'.writes, id) == 1;
    forall d | 0 <= d < |s'.clients|
      ensures ClientSound(s', s'.clients[d])
    {
      assert ClientSound(s, s.clients[d]);
      assert d != c ==> !Owns(s.clients[d], id);
    }
    forall j
      ensures WritesSound(s'.rows, s'.writes, j)
    {
      assert WritesSound(s.rows, s.writes, j);
    }
  }

  lemma ExecuteKeeps(policy: Policy, s: State, e: Event)
    requires Invariant(policy, s) && Enabled(s, e) && e.Execute?
    ensures Invariant(policy, Next(policy, s, e))
  {
    var k := s.clients[e.client];
    var guarded := Guarded(policy, k.proposal, k.approval, k.actor, e.now);
    assert ClientSound(s, k);
    if guarded.Success? {
      GuardsAreExact(policy, k.proposal, k.approval, k.actor, e.now, guarded.value);
      WriteKeeps(policy, s, e.client, Write(k.proposal, k.approval, k.actor, e.now, guarded.value),
          Reporting(k.proposal.id, e.writerReturns));
    } else {
      MoveKeeps(policy, s, e.client, Reporting(k.proposal.id, false));
    }
  }

  lemma ReadsKeep(policy: Policy, s: State, e: Event)
    requires Invariant(policy, s) && Enabled(s, e) && (e.BeginApprove? || e.BeginExecute? || e.ReadApproval?
             || e.Crash?)
    ensures Invariant(policy, Next(policy, s, e))
  {
    match e
    case BeginApprove(id, approver) =>
      if id in s.rows && s.rows[id].payload.requestedBy != approver {
        assert RowSound(s.rows, id);
        JoinKeeps(policy, s, Approving(s.rows[id].payload, approver));
      }
    case BeginExecute(id, actor) =>
      if id in s.rows {
        assert RowSound(s.rows, id);
        JoinKeeps(policy, s, Fetched(s.rows[id].payload, actor));
      }
    case ReadApproval(c) =>
      var k := s.clients[c];
      assert ClientSound(s, k);
      if s.rows[k.proposal.id].approval.Some? {
        MoveKeeps(policy, s, c, Ready(k.proposal, s.rows[k.proposal.id].approval.value, k.actor));
      } else {
        MoveKeeps(policy, s, c, Gone);
      }
    case Crash(c) => MoveKeeps(policy, s, c, Gone);
  }

  lemma InvariantStep(policy: Policy, s: State, e: Event)
    requires Invariant(policy, s) && Enabled(s, e)
    ensures Invariant(policy, Next(policy, s, e))
  {
    match e
    case Propose(p) => ProposeKeeps(policy, s, p);
    case Approve(_, _) => ApproveKeeps(policy, s, e);
    case Claim(_) => ClaimKeeps(policy, s, e);
    case Execute(_, _, _) => ExecuteKeeps(policy, s, e);
    case Report(_) => ReportKeeps(policy, s, e);
    case BeginApprove(_, _) => ReadsKeep(policy, s, e);
    case BeginExecute(_, _) => ReadsKeep(policy, s, e);
    case ReadApproval(_) => ReadsKeep(policy, s, e);
    case Crash(_) => ReadsKeep(policy, s, e);
  }

  lemma InvariantAt(policy: Policy, states: seq<State>, events: seq<Event>, i: nat)
    requires Run(policy, states, events) && i < |events|
    ensures Invariant(policy, states[i]) ==> Invariant(policy, states[i + 1])
  {
    if Invariant(policy, states[i]) {
      assert StepAt(policy, states, events, i);
      InvariantStep(policy, states[i], events[i]);
    }
  }

  lemma InvariantAlways(policy: Policy, states: seq<State>, events: seq<Event>, n: nat)
    requires Run(policy, states, events) && n < |states|
    ensures Invariant(policy, states[n])
  {
    for i := 0 to n
      invariant Invariant(policy, states[i])
    {
      InvariantAt(policy, states, events, i);
    }
  }

  /** At most one writer call per proposal, exactly one for an executed one, none before a claim. */
  lemma WriterIsCalledAtMostOnce(policy: Policy, states: seq<State>, events: seq<Event>, n: nat, id: string)
    requires Run(policy, states, events) && n < |states|
    ensures WritesSound(states[n].rows, states[n].writes, id)
  {
    InvariantAlways(policy, states, events, n);
  }

  /** Every writer call was for the stored proposal, under the stored approval, and sanctioned. */
  lemma EveryWriteIsSanctioned(policy: Policy, states: seq<State>, events: seq<Event>, n: nat, i: nat)
    requires Run(policy, states, events) && n < |states| && i < |states[n].writes|
    ensures var w := states[n].writes[i];
            Matches(states[n].rows, w.proposal, w.approval)
                && Sanctioned(policy, w.proposal, w.approval, w.actor, w.at, w.call)
  {
    InvariantAlways(policy, states, events, n);
  }

  ghost function Rank(status: Status): nat {
    match status
    case Proposed => 0
    case Approved => 1
    case Executing => 2
    case Executed => 3
    case Failed => 3
  }

  lemma StatusStep(policy: Policy, states: seq<State>, events: seq<Event>, i: nat, id: string)
    requires Run(policy, states, events) && i < |events| && id in states[i].rows
    ensures id in states[i + 1].rows && states[i + 1].rows[id].payload == states[i].rows[id].payload
    ensures Rank(states[i].rows[id].status) <= Rank(states[i + 1].rows[id].status)
    ensures states[i].rows[id].status.Executed? || states[i].rows[id].status.Failed? ==>
              states[i + 1].rows[id] == states[i].rows[id]
    ensures states[i].rows[id].approval.Some? ==> states[i + 1].rows[id].approval == states[i].rows[id].approval
  {
    InvariantAlways(policy, states, events, i);
    assert StepAt(policy, states, events, i) && RowSound(states[i].rows, id);
  }

  /** Payloads never change, approvals are given once, statuses only advance and end for good. */
  lemma {:induction false} ProposalsOnlyAdvance(policy: Policy, states: seq<State>, events: seq<Event>, m: nat, n: nat,
      id: string)
    requires Run(policy, states, events) && m <= n < |states| && id in states[m].rows
    ensures id in states[n].rows && states[n].rows[id].payload == states[m].rows[id].payload
    ensures Rank(states[m].rows[id].status) <= Rank(states[n].rows[id].status)
    ensures states[m].rows[id].status.Executed? || states[m].rows[id].status.Failed? ==>
              states[n].rows[id] == states[m].rows[id]
    ensures states[m].rows[id].approval.Some? ==> states[n].rows[id].approval == states[m].rows[id].approval
    decreases n - m
  {
    if m < n {
      ProposalsOnlyAdvance(policy, states, events, m, n - 1, id);
      StatusStep(policy, states, events, n - 1, id);
    }
  }

  ghost predicate Unowned(s: State, id: string) {
    forall c :: 0 <= c < |s.clients| ==> !Owns(s.clients[c], id)
  }

  lemma StuckRow(policy: Policy, s: State, e: Event, id: string)
    requires Enabled(s, e) && id in s.rows && s.rows[id].status == Executing && Unowned(s, id)
    ensures id in Next(policy, s, e).rows && Next(policy, s, e).rows[id] == s.rows[id]
    ensures Unowned(Next(policy, s, e), id)
  {
    if e.Report? || e.Execute? {
      assert !Owns(s.clients[e.client], id);
    }
  }

  lemma StuckWrites(policy: Policy, s: State, e: Event, id: string)
    requires Enabled(s, e) && Unowned(s, id)
    ensures CountWrites(Next(policy, s, e).writes, id) == CountWrites(s.writes, id)
  {
    var s' := Next(policy, s, e);
    if e.Execute? && s'.writes != s.writes {
      assert !Owns(s.clients[e.client], id);
      assert s'.writes[..|s.writes|] == s.writes;
    }
  }

  lemma StuckAt(policy: Policy, states: seq<State>, events: seq<Event>, m: nat, i: nat, id: string)
    requires Run(policy, states, events) && m <= i < |events| && id in states[m].rows
    ensures StuckSince(states, m, i, id) ==> StuckSince(states, m, i + 1, id)
  {
    if StuckSince(states, m, i, id) {
      assert StepAt(policy, states, events, i);
      StuckRow(policy, states[i], events[i], id);
      StuckWrites(policy, states[i], events[i], id);
    }
  }

  ghost predicate StuckSince(states: seq<State>, m: nat, i: nat, id: string)
    requires m <= i < |states| && id in states[m].rows
  {
    && id in states[i].rows && states[i].rows[id] == states[m].rows[id] && states[m].rows[id].status == Executing
    && CountWrites(states[i].writes, id) == CountWrites(states[m].writes, id)
    && Unowned(states[i], id)
  }

  /** After a crash between claim and report the proposal stays claimed: it is never written again. */
  lemma CrashedClaimIsNeverRetried(policy: Policy, states: seq<State>, events: seq<Event>, m: nat, n: nat, id: string)
    requires Run(policy, states, events) && m <= n < |states| && id in states[m].rows
             && states[m].rows[id].status == Executing
    requires Unowned(states[m], id)
    ensures id in states[n].rows && states[n].rows[id] == states[m].rows[id]
    ensures CountWrites(states[n].writes, id) == CountWrites(states[m].writes, id)
  {
    for i := m to n
      invariant StuckSince(states, m, i, id)
    {
      StuckAt(policy, states, events, m, i, id);
    }
  }
}
