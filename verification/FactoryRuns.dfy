/** Any interleaving of clients that read a workload, perform one operation and save it. */
module FactoryRuns {
  import opened Common
  import opened Factory

  /** Where a client stands: it has read a version, or has performed one operation on what it read. */
  datatype Client = Loaded(workload: Workload, version: nat) | Edited(workload: Workload, version: nat,
      op: Operation) | Gone

  datatype State = State(versions: Versions, clients: seq<Client>)

  datatype Event =
    | Create(spec: Spec, id: string)
    | Get(id: string, tenant: string)
    | Perform(client: nat, op: Operation)
    | Save(client: nat)

  ghost predicate Enabled(s: State, e: Event) {
    match e
    case Create(_, _) => true
    case Get(_, _) => true
    case Perform(c, _) => c < |s.clients| && s.clients[c].Loaded?
    case Save(c) => c < |s.clients| && s.clients[c].Edited?
  }

  ghost function Next(s: State, e: Event): State
    requires Enabled(s, e)
  {
    match e
    case Create(spec, id) => s.(versions := Created(s.versions, NewWorkload(spec, id)))
    case Get(id, tenant) =>
      var latest := Latest(s.versions, id, tenant);
      if latest.Some? then s.(clients := s.clients + [Loaded(latest.value.0, latest.value.1)]) else s
    case Perform(c, op) =>
      var k := s.clients[c];
      s.(clients := s.clients[c := if Permitted(k.workload, op) then Edited(Applied(k.workload, op), k.version, op)
          else Gone])
    case Save(c) =>
      var k := s.clients[c];
      State(Saved(s.versions, k.workload, k.version), s.clients[c := Gone])
  }

  ghost predicate StepAt(states: seq<State>, events: seq<Event>, i: nat)
    requires |states| == |events| + 1 && i < |events|
  {
    Enabled(states[i], events[i]) && states[i + 1] == Next(states[i], events[i])
  }

  ghost predicate Run(states: seq<State>, events: seq<Event>) {
    && |states| == |events| + 1 && states[0] == State(map[], [])
    && forall i: nat :: i < |events| ==> StepAt(states, events, i)
  }

  ghost predicate VersionSound(id: string, versions: seq<Workload>, k: nat)
    requires k < |versions|
  {
    Sound(versions[k]) && versions[k].id == id && versions[k].spec == versions[0].spec
  }

  ghost predicate Follows(versions: seq<Workload>, k: nat)
    requires k + 1 < |versions|
  {
    Succeeds(versions[k], versions[k + 1])
  }

  ghost predicate Lineage(id: string, versions: seq<Workload>) {
    && versions != [] && versions[0] == NewWorkload(versions[0].spec, id)
    && (forall k: nat :: k < |versions| ==> VersionSound(id, versions, k))
    && (forall k: nat :: k + 1 < |versions| ==> Follows(versions, k))
  }

  ghost predicate ClientSound(s: State, c: Client) {
    match c
    case Gone => true
    case Loaded(w, v) => w.id in s.versions && 1 <= v <= |s.versions[w.id]| && s.versions[w.id][v - 1] == w
    case Edited(w, v, op) =>
      && w.id in s.versions && 1 <= v <= |s.versions[w.id]|
      && Permitted(s.versions[w.id][v - 1], op) && w == Applied(s.versions[w.id][v - 1], op)
  }

  ghost predicate Invariant(s: State) {
    && (forall id :: id in s.versions ==> Lineage(id, s.versions[id]))
    && (forall c :: 0 <= c < |s.clients| ==> ClientSound(s, s.clients[c]))
  }

  lemma VersionsExtend(id: string, versions: seq<Workload>, w: Workload)
    requires versions != [] && forall k: nat :: k < |versions| ==> VersionSound(id, versions, k)
    requires Sound(w) && w.id == id && w.spec == versions[0].spec
    ensures forall k: nat :: k < |versions| + 1 ==> VersionSound(id, versions + [w], k)
  {
    var longer := versions + [w];
    forall k: nat | k < |longer|
      ensures VersionSound(id, longer, k)
    {
      assert k < |versions| ==> VersionSound(id, versions, k);
    }
  }

  lemma SuccessionExtends(versions: seq<Workload>, w: Workload)
    requires versions != [] && Succeeds(versions[|versions| - 1], w)
    requires forall k: nat :: k + 1 < |versions| ==> Follows(versions, k)
    ensures forall k: nat :: k < |versions| ==> Follows(versions + [w], k)
  {
    var longer := versions + [w];
    forall k: nat | k < |versions|
      ensures Follows(longer, k)
    {
      assert k + 1 < |versions| ==> Follows(versions, k);
    }
  }

  lemma LineageExtends(id: string, versions: seq<Workload>, w: Workload)
    requires Lineage(id, versions) && Succeeds(versions[|versions| - 1], w)
    ensures Lineage(id, versions + [w])
  {
    assert VersionSound(id, versions, |versions| - 1);
    SuccessionKeeps(versions[|versions| - 1], w);
    VersionsExtend(id, versions, w);
    SuccessionExtends(versions, w);
  }

  lemma ClientsSurviveGrowth(s: State, s': State, c: Client)
    requires ClientSound(s, c) && s.versions.Keys <= s'.versions.Keys && forall id :: id in s.versions ==>
               s.versions[id] <= s'.versions[id]
    ensures ClientSound(s', c)
  {
  }

  lemma SaveKeeps(s: State, c: nat)
    requires Invariant(s) && Enabled(s, Save(c))
    ensures Invariant(Next(s, Save(c)))
  {
    var k, s' := s.clients[c], Next(s, Save(c));
    assert ClientSound(s, k);
    if Current(s.versions, k.workload, k.version) {
      LineageExtends(k.workload.id, s.versions[k.workload.id], k.workload);
    }
    forall d | 0 <= d < |s'.clients|
      ensures ClientSound(s', s'.clients[d])
    {
      if d != c {
        ClientsSurviveGrowth(s, s', s.clients[d]);
      }
    }
  }

  /** Client c moves to k while nothing else changes, or k joins. */
  lemma ClientsKeep(s: State, s': State, k: Client)
    requires Invariant(s) && s'.versions == s.versions && ClientSound(s, k)
    requires forall d :: 0 <= d < |s'.clients| ==> s'.clients[d] == k || s'.clients[d] in s.clients
    ensures Invariant(s')
  {
    forall d | 0 <= d < |s'.clients|
      ensures ClientSound(s', s'.clients[d])
    {
      assert ClientSound(s, s'.clients[d]);
    }
  }

  lemma CreateKeeps(s: State, e: Event)
    requires Invariant(s) && e.Create?
    ensures Invariant(Next(s, e))
  {
    var s' := Next(s, e);
    forall d | 0 <= d < |s'.clients|
      ensures ClientSound(s', s'.clients[d])
    {
      ClientsSurviveGrowth(s, s', s.clients[d]);
    }
    forall id | id in s'.versions
      ensures Lineage(id, s'.versions[id])
    {
      if id !in s.versions {
        var versions := s'.versions[id];
        assert forall k: nat :: k < |versions| ==> VersionSound(id, versions, k);
      }
    }
  }

  lemma OthersKeep(s: State, e: Event)
    requires Invariant(s) && Enabled(s, e) && !e.Save?
    ensures Invariant(Next(s, e))
  {
    match e
    case Create(_, _) => CreateKeeps(s, e);
    case Get(id, tenant) =>
      var latest := Latest(s.versions, id, tenant);
      if latest.Some? {
        assert VersionSound(id, s.versions[id], |s.versions[id]| - 1);
        ClientsKeep(s, Next(s, e), Loaded(latest.value.0, latest.value.1));
      }
    case Perform(c, op) =>
      assert ClientSound(s, s.clients[c]);
      ClientsKeep(s, Next(s, e), Next(s, e).clients[c]);
  }

  lemma InvariantAt(states: seq<State>, events: seq<Event>, i: nat)
    requires Run(states, events) && i < |events|
    ensures Invariant(states[i]) ==> Invariant(states[i + 1])
  {
    if Invariant(states[i]) {
      assert StepAt(states, events, i);
      if events[i].Save? {
        SaveKeeps(states[i], events[i].client);
      } else {
        OthersKeep(states[i], events[i]);
      }
    }
  }

  lemma InvariantAlways(states: seq<State>, events: seq<Event>, n: nat)
    requires Run(states, events) && n < |states|
    ensures Invariant(states[n])
  {
    for i := 0 to n
      invariant Invariant(states[i])
    {
      InvariantAt(states, events, i);
    }
  }

  /** No lost updates: each stored version is one permitted operation on the version before it. */
  lemma NoLostUpdates(states: seq<State>, events: seq<Event>, n: nat, id: string, k: nat)
    requires Run(states, events) && n < |states| && id in states[n].versions && k + 1 < |states[n].versions[id]|
    ensures Succeeds(states[n].versions[id][k], states[n].versions[id][k + 1])
  {
    InvariantAlways(states, events, n);
    assert Follows(states[n].versions[id], k);
  }

  /** Every stored version has its gates, its independent approver and its unbroken history. */
  lemma StoredWorkloadsAreSound(states: seq<State>, events: seq<Event>, n: nat, id: string, k: nat)
    requires Run(states, events) && n < |states| && id in states[n].versions && k < |states[n].versions[id]|
    ensures var w := states[n].versions[id][k];
            Sound(w) && w.id == id && w.spec == states[n].versions[id][0].spec
  {
    InvariantAlways(states, events, n);
    assert VersionSound(id, states[n].versions[id], k);
  }

  ghost predicate SettlesAt(versions: seq<Workload>, k: nat)
    requires k + 1 < |versions|
  {
    PastApproval(versions[k].stage) ==> SettledFrom(versions[k], versions[k + 1])
  }

  lemma LineageSettles(id: string, versions: seq<Workload>, k: nat)
    requires Lineage(id, versions) && k + 1 < |versions|
    ensures SettlesAt(versions, k)
  {
    assert VersionSound(id, versions, k) && Follows(versions, k);
    SuccessionKeeps(versions[k], versions[k + 1]);
  }

  lemma {:induction false} ApprovalSticks(versions: seq<Workload>, k: nat, l: nat)
    requires k <= l < |versions| && PastApproval(versions[k].stage)
    requires forall j: nat :: j + 1 < |versions| ==> SettlesAt(versions, j)
    ensures SettledFrom(versions[k], versions[l])
  {
    if k < l {
      ApprovalSticks(versions, k, l - 1);
      assert SettlesAt(versions, l - 1);
    }
  }

  /** From the approved version on, gates, approver and policy are unchanged and history only grows. */
  lemma GatesAreFrozenAfterApproval(states: seq<State>, events: seq<Event>, n: nat, id: string, k: nat, l: nat)
    requires Run(states, events) && n < |states| && id in states[n].versions && k <= l < |states[n].versions[id]|
    requires PastApproval(states[n].versions[id][k].stage)
    ensures SettledFrom(states[n].versions[id][k], states[n].versions[id][l])
  {
    InvariantAlways(states, events, n);
    var versions := states[n].versions[id];
    forall j: nat | j + 1 < |versions|
      ensures SettlesAt(versions, j)
    {
      LineageSettles(id, versions, j);
    }
    ApprovalSticks(versions, k, l);
  }
}
