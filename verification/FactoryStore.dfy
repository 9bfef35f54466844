/** Workloads as stored documents, and the optimistic store that keeps them. */
module FactoryDocuments {
  import opened Common
  import opened Factory

  // A JSON object of fixed members is a record here; enumerations appear by their values.

  datatype SpecDocument = SpecDocument(name: string, kind: string, owner: string, tenant: string, environment: string,
                                       artifactDigest: string, classification: string, slo: Slo, requiresGpu: bool,
                                           internetEgress: bool)

  datatype GateDocument = GateDocument(gate: string, status: string, evidence: string, evaluator: string,
                                       evidenceDigest: string, signingKeyId: string, signature: string, measuredAt: int)

  datatype Document = Document(spec: SpecDocument, workloadId: string, stage: string, gates: map<string, GateDocument>,
                               approvedBy: Option<string>, policyDigest: Option<string>, history: seq<Entry>)

  function KindName(k: Kind): string {
    match k
    case Model => "model"
    case Llm => "llm"
    case Agent => "agent"
    case Rag => "rag"
  }

  function KindOf(s: string): Option<Kind> {
    if s == "model" then Some(Model)
    else if s == "llm" then Some(Llm)
    else if s == "agent" then Some(Agent)
    else if s == "rag" then Some(Rag)
    else None
  }

  function StageOf(s: string): Option<Stage> {
    if s == "draft" then Some(Draft)
    else if s == "validated" then Some(Validated)
    else if s == "approved" then Some(Approved)
    else if s == "provisioned" then Some(Provisioned)
    else if s == "released" then Some(Released)
    else if s == "suspended" then Some(Suspended)
    else if s == "retired" then Some(Retired)
    else None
  }

  function StatusName(s: GateStatus): string {
    match s
    case Pass => "pass"
    case Fail => "fail"
  }

  function StatusOf(s: string): Option<GateStatus> {
    if s == "pass" then Some(Pass) else if s == "fail" then Some(Fail) else None
  }

  function SpecWritten(s: Spec): SpecDocument {
    SpecDocument(s.name, KindName(s.kind), s.owner, s.tenant, s.environment,
                 s.artifactDigest, s.classification, s.slo, s.requiresGpu, s.internetEgress)
  }

  function GateWritten(g: GateResult): GateDocument {
    GateDocument(g.gate, StatusName(g.status), g.evidence, g.evaluator, g.evidenceDigest, g.signingKeyId, g.signature,
        g.measuredAt)
  }

  function Serialize(w: Workload): Document {
    Document(SpecWritten(w.spec), w.id, StageName(w.stage), map name | name in w.gates :: GateWritten(w.gates[name]),
             w.approvedBy, w.policyDigest, w.history)
  }

  /** The constructor's checks run again when a specification is rebuilt. */
  function SpecRead(d: SpecDocument): Option<Spec> {
    var kind := KindOf(d.kind);
    if kind.None? then None
    else
      var s := Spec(d.name, kind.value, d.owner, d.tenant, d.environment,
                    d.artifactDigest, d.classification, d.slo, d.requiresGpu, d.internetEgress);
      if s.Valid() then Some(s) else None
  }

  function GateRead(d: GateDocument): Option<GateResult> {
    var status := StatusOf(d.status);
    if status.None? || Blank(d.evidence) then None
    else Some(GateResult(d.gate, status.value, d.evidence, d.evaluator, d.evidenceDigest, d.signingKeyId, d.signature,
         d.measuredAt))
  }

  function GatesRead(gates: map<string, GateDocument>): Option<map<string, GateResult>> {
    if forall name :: name in gates ==> GateRead(gates[name]).Some?
    then Some(map name | name in gates :: GateRead(gates[name]).value) else None
  }

  /** None stands for any exception the reconstruction raises. */
  function Deserialize(d: Document): Option<Workload> {
    var spec, stage, gates := SpecRead(d.spec), StageOf(d.stage), GatesRead(d.gates);
    if spec.None? || stage.None? || gates.None? then None
    else Some(Workload(spec.value, d.workloadId, stage.value, gates.value, d.approvedBy, d.policyDigest, d.history))
  }

  /** What the constructors have already checked of a workload in memory. */
  ghost predicate Constructed(w: Workload) {
    w.spec.Valid() && forall name :: name in w.gates ==> !Blank(w.gates[name].evidence)
  }

  lemma SpecRoundTrip(s: Spec)
    ensures SpecRead(SpecWritten(s)) == if s.Valid() then Some(s) else None
  {
    assert KindOf(KindName(s.kind)) == Some(s.kind);
  }

  lemma GateRoundTrip(g: GateResult)
    ensures GateRead(GateWritten(g)) == if Blank(g.evidence) then None else Some(g)
  {
    assert StatusOf(StatusName(g.status)) == Some(g.status);
  }

  lemma StageRoundTrip(s: Stage)
    ensures StageOf(StageName(s)) == Some(s)
  {
  }

  lemma GatesRoundTrip(gates: map<string, GateResult>, written: map<string, GateDocument>)
    requires written == map name | name in gates :: GateWritten(gates[name])
    requires forall name :: name in gates ==> !Blank(gates[name].evidence)
    ensures GatesRead(written) == Some(gates)
  {
    forall name | name in gates
      ensures GateRead(written[name]) == Some(gates[name])
    {
      GateRoundTrip(gates[name]);
    }
    assert GatesRead(written).value == gates;
  }

  /** Reading back what was written gives the same workload. */
  lemma RoundTrip(w: Workload)
    requires Constructed(w)
    ensures Deserialize(Serialize(w)) == Some(w)
  {
    SpecRoundTrip(w.spec);
    StageRoundTrip(w.stage);
    GatesRoundTrip(w.gates, Serialize(w).gates);
  }

  /** Different workloads are stored as different documents. */
  lemma DocumentsAreFaithful(w: Workload, w': Workload)
    requires Constructed(w) && Constructed(w') && Serialize(w) == Serialize(w')
    ensures w == w'
  {
    RoundTrip(w);
    RoundTrip(w');
  }
}

module FactoryStore {
  import opened Common
  import opened Factory
  import opened FactoryDocuments

  datatype StoreError = ConcurrencyError

  datatype Row = Row(tenant: string, version: int, document: Document)

  /** The row holds the document, tenant and number of the last of these versions. */
  ghost predicate Holds(r: Row, versions: seq<Workload>, id: string) {
    && versions != [] && r.version == |versions| && r.tenant == versions[0].spec.tenant
    && Constructed(versions[|versions| - 1]) && r.document == Serialize(versions[|versions| - 1])
    && versions[|versions| - 1].id == id
  }

  class FactoryStore {
    var rows: map<string, Row>
    ghost var versions: Versions

    ghost predicate Valid()
      reads this
    {
      rows.Keys == versions.Keys && forall id :: id in rows ==> Holds(rows[id], versions[id], id)
    }

    constructor ()
      ensures Valid() && versions == map[]
    {
      rows, versions := map[], map[];
    }

    method Create(w: Workload) returns (ok: bool)
      requires Valid() && Constructed(w)
      modifies this
      ensures Valid() && versions == Created(old(versions), w)
      ensures ok <==> w.id !in old(versions)
    {
      if w.id in rows {
        return false;
      }
      rows := rows[w.id := Row(w.spec.tenant, 1, Serialize(w))];
      versions := versions[w.id := [w]];
      return true;
    }

    /** A tenant reads its own workloads, as they were last written, and nobody else's. */
    method Get(id: string, tenant: string) returns (r: Option<(Workload, int)>)
      requires Valid()
      ensures r == Latest(versions, id, tenant)
    {
      if id !in rows || rows[id].tenant != tenant {
        return None;
      }
      RoundTrip(versions[id][|versions[id]| - 1]);
      var w := Deserialize(rows[id].document);
      return Some((w.value, rows[id].version));
    }

    /** The conditional UPDATE: it happens exactly when id, tenant and version all match. */
    method Save(w: Workload, expected: int) returns (r: Result<int, StoreError>)
      requires Valid() && Constructed(w)
      modifies this
      ensures Valid() && versions == Saved(old(versions), w, expected)
      ensures r == if Current(old(versions), w, expected) then Success(expected + 1)
              else Failure(ConcurrencyError)
    {
      if w.id !in rows || rows[w.id].tenant != w.spec.tenant || rows[w.id].version != expected {
        return Failure(ConcurrencyError);
      }
      rows := rows[w.id := rows[w.id].(version := expected + 1, document := Serialize(w))];
      versions := versions[w.id := versions[w.id] + [w]];
      return Success(expected + 1);
    }
  }
}
