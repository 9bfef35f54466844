/**
 The workload operator: one reconciliation of a custom resource against its Deployment and Service,
 or its Job, with every API call free to fail before or after it takes effect.
 */
module Reconciler {
  import opened Common

  // ---- The custom resource and what Parse and Validate make of it -------------------------------

  /** A resource quantity, and whether resource.MustParse accepts its text. */
  datatype Quantity = Quantity(text: string, parses: bool)

  /** What Validate can complain of. */
  datatype Problem = UnpinnedImage | NotApproved | ReplicasOutOfRange | PortOutOfRange | ResourcesMissing

  /** A status message by what it says; any text the operator never writes is Other. */
  datatype Message =
    | ImageRequired
    | Problems(problems: seq<Problem>)
    | JobCompleted
    | JobExhaustedRetries
    | JobRunning
    | ReplicasAvailable
    | WaitingForReplicas
    | Other(text: string)

  datatype Status = Status(phase: string, message: Message, observedGeneration: int)

  datatype Resource = Resource(name: string, namespace: string, apiVersion: string, kind: string, uid: string,
      generation: int, image: string, replicas: Option<int>, port: Option<int>, approved: bool,
                                   serviceAccount: string,
                               cpuRequest: Quantity, memoryRequest: Quantity, cpuLimit: Quantity, memoryLimit: Quantity,
                               status: Status)

  datatype WorkloadSpec = WorkloadSpec(image: string, replicas: int, port: int, approved: bool, serviceAccount: string,
                                       cpuRequest: Quantity, memoryRequest: Quantity, cpuLimit: Quantity,
                                           memoryLimit: Quantity)

  /** Go's conversion of an int64 to int32: the low 32 bits, read as a signed number. */
  function Int32(n: int): int {
    (n + 0x8000_0000) % 0x1_0000_0000 - 0x8000_0000
  }

  function Parse(o: Resource): Option<WorkloadSpec> {
    if o.image == "" then None
    else
      Some(WorkloadSpec(o.image, Int32(if o.replicas.Some? then o.replicas.value else 1),
          Int32(if o.port.Some? then o.port.value else 8000),
                        o.approved, o.serviceAccount, o.cpuRequest, o.memoryRequest, o.cpuLimit, o.memoryLimit))
  }

  predicate DigestAt(image: string, i: nat) {
    i + 8 <= |image| && image[i..i + 8] == "@sha256:"
  }

  predicate Pinned(image: string) {
    exists i: nat :: i < |image| && DigestAt(image, i)
  }

  function Validate(s: WorkloadSpec): seq<Problem> {
    (if Pinned(s.image) then [] else [UnpinnedImage])
    + (if s.approved then [] else [NotApproved])
    + (if s.replicas < 1 || s.replicas > 100 then [ReplicasOutOfRange] else [])
    + (if s.port < 1 || s.port > 65535 then [PortOutOfRange] else [])
    + (if s.cpuRequest.text == "" || s.memoryRequest.text == "" || s.cpuLimit.text == "" || s.memoryLimit.text == ""
       then [ResourcesMissing] else [])
  }

  predicate QuantitiesParse(s: WorkloadSpec) {
    s.cpuRequest.parses && s.memoryRequest.parses && s.cpuLimit.parses && s.memoryLimit.parses
  }

  // ---- The objects it owns -----------------------------------------------------------------------

  datatype Labels = Labels(name: string, kind: string)

  datatype Owner = Owner(apiVersion: string, kind: string, name: string, uid: string)

  datatype PodSpec = PodSpec(serviceAccount: string, image: string, port: int, cpuRequest: Quantity,
      memoryRequest: Quantity, cpuLimit: Quantity, memoryLimit: Quantity, restartNever: bool)

  datatype DeploymentSpec = DeploymentSpec(replicas: int, labels: Labels, pod: PodSpec)

  datatype Deployment = Deployment(labels: Labels, owner: Owner, spec: DeploymentSpec, generation: int,
                                   observedGeneration: int, availableReplicas: int)

  /** `rest` stands for the Service fields the operator never touches. */
  datatype Service = Service(labels: Labels, owner: Owner, selector: Labels, port: int, rest: string)

  datatype Job = Job(labels: Labels, owner: Owner, pod: PodSpec, succeeded: int, failed: int)

  function LabelsFor(o: Resource): Labels {
    Labels(o.name, o.kind)
  }

  function OwnerOf(o: Resource): Owner {
    Owner(o.apiVersion, o.kind, o.name, o.uid)
  }

  function PodFor(s: WorkloadSpec, restartNever: bool): PodSpec {
    PodSpec(s.serviceAccount, s.image, s.port, s.cpuRequest, s.memoryRequest, s.cpuLimit, s.memoryLimit, restartNever)
  }

  function DesiredSpec(o: Resource, s: WorkloadSpec): DeploymentSpec {
    DeploymentSpec(s.replicas, LabelsFor(o), PodFor(s, false))
  }

  function NewDeployment(o: Resource, s: WorkloadSpec): Deployment {
    Deployment(LabelsFor(o), OwnerOf(o), DesiredSpec(o, s), 1, 0, 0)
  }

  /** An update bumps the generation exactly when it changes the spec. */
  function UpdatedDeployment(d: Deployment, o: Resource, s: WorkloadSpec): Deployment {
    d.(labels := LabelsFor(o), owner := OwnerOf(o), spec := DesiredSpec(o, s),
       generation := if d.spec == DesiredSpec(o, s) then d.generation else d.generation + 1)
  }

  function NewService(o: Resource, s: WorkloadSpec): Service {
    Service(LabelsFor(o), OwnerOf(o), LabelsFor(o), s.port, "")
  }

  function UpdatedService(v: Service, o: Resource, s: WorkloadSpec): Service {
    v.(selector := LabelsFor(o), port := s.port)
  }

  function NewJob(o: Resource, s: WorkloadSpec): Job {
    Job(LabelsFor(o), OwnerOf(o), PodFor(s, true), 0, 0)
  }

  // ---- The API server ------------------------------------------------------------------------------

  datatype Cluster = Cluster(resource: Option<Resource>, deployment: Option<Deployment>, service: Option<Service>,
      job: Option<Job>)

  /** How a call ends: well, with an error before it took effect, or with an error after it did. */
  datatype Fault = Fine | Lost | Landed

  /** The cluster, the calls made so far, and a log of workload writes and of status writes. */
  datatype World = World(cluster: Cluster, calls: nat, writes: seq<WorkloadSpec>, statusWrites: nat)

  function FaultAt(faults: seq<Fault>, call: nat): Fault {
    if call < |faults| then faults[call] else Fine
  }

  datatype Lookup<T> = Found(value: T) | NotFound | Unavailable

  function Answer<T>(f: Fault, x: Option<T>): Lookup<T> {
    if !f.Fine? then Unavailable else if x.Some? then Found(x.value) else NotFound
  }

  datatype Outcome = Succeeded | Failed | Panicked

  datatype Finish = Done(requeue: bool) | Errored | Crashed

  function Wrote(f: Fault): Outcome {
    if f.Fine? then Succeeded else Failed
  }

  // ---- Reconciliation as a function of the world -------------------------------------------------

  function PutDeployment(faults: seq<Fault>, w: World, d: Deployment, s: WorkloadSpec): (World, Outcome) {
    var f := FaultAt(faults, w.calls);
    (w.(calls := w.calls + 1, writes := w.writes + [s], cluster := if f.Lost? then w.cluster
        else w.cluster.(deployment := Some(d))), Wrote(f))
  }

  function PutService(faults: seq<Fault>, w: World, v: Service, s: WorkloadSpec): (World, Outcome) {
    var f := FaultAt(faults, w.calls);
    (w.(calls := w.calls + 1, writes := w.writes + [s], cluster := if f.Lost? then w.cluster
        else w.cluster.(service := Some(v))), Wrote(f))
  }

  function PutJob(faults: seq<Fault>, w: World, j: Job, s: WorkloadSpec): (World, Outcome) {
    var f := FaultAt(faults, w.calls);
    (w.(calls := w.calls + 1, writes := w.writes + [s], cluster := if f.Lost? then w.cluster
        else w.cluster.(job := Some(j))), Wrote(f))
  }

  function Called(w: World): World {
    w.(calls := w.calls + 1)
  }

  /** The desired object is built, and may panic, whatever the lookup said. */
  function EnsuredDeployment(faults: seq<Fault>, w: World, o: Resource, s: WorkloadSpec): (World, Outcome) {
    var w1 := Called(w);
    if !QuantitiesParse(s) then (w1, Panicked)
    else match Answer(FaultAt(faults, w.calls), w.cluster.deployment)
      case NotFound => PutDeployment(faults, w1, NewDeployment(o, s), s)
      case Unavailable => (w1, Failed)
      case Found(d) => PutDeployment(faults, w1, UpdatedDeployment(d, o, s), s)
  }

  function EnsuredService(faults: seq<Fault>, w: World, o: Resource, s: WorkloadSpec): (World, Outcome) {
    var w1 := Called(w);
    match Answer(FaultAt(faults, w.calls), w.cluster.service)
    case NotFound => PutService(faults, w1, NewService(o, s), s)
    case Unavailable => (w1, Failed)
    case Found(v) => PutService(faults, w1, UpdatedService(v, o, s), s)
  }

  function EnsuredJob(faults: seq<Fault>, w: World, o: Resource, s: WorkloadSpec): (World, Outcome) {
    var w1 := Called(w);
    match Answer(FaultAt(faults, w.calls), w.cluster.job)
    case Found(_) => (w1, Succeeded)
    case Unavailable => (w1, Failed)
    case NotFound => if !QuantitiesParse(s) then (w1, Panicked) else PutJob(faults, w1, NewJob(o, s), s)
  }

  predicate IsEvaluation(o: Resource) {
    o.kind == "EvaluationRun"
  }

  function Ensured(faults: seq<Fault>, w: World, o: Resource, s: WorkloadSpec): (World, Outcome) {
    if IsEvaluation(o) then EnsuredJob(faults, w, o, s)
    else
      var (w1, outcome) := EnsuredDeployment(faults, w, o, s);
      if outcome != Succeeded then (w1, outcome) else EnsuredService(faults, w1, o, s)
  }

  /** Phase, message and whether nothing is left to wait for. */
  datatype Observation = Observation(phase: string, message: Message, complete: bool)

  function ObserveJob(j: Job): Observation {
    if j.succeeded > 0 then Observation("Completed", JobCompleted, true)
    else if j.failed > 1 then Observation("Failed", JobExhaustedRetries, true)
    else Observation("Running", JobRunning, false)
  }

  function ObserveDeployment(d: Deployment, s: WorkloadSpec): Observation {
    if d.observedGeneration >= d.generation && d.availableReplicas >= s.replicas
    then Observation("Ready", ReplicasAvailable, true)
    else Observation("Progressing", WaitingForReplicas, false)
  }

  function Observed(faults: seq<Fault>, w: World, o: Resource, s: WorkloadSpec): (World, Option<Observation>) {
    var f := FaultAt(faults, w.calls);
    (Called(w),
     if IsEvaluation(o) then
       match Answer(f, w.cluster.job) case Found(j) => Some(ObserveJob(j)) case _ => None
     else
       match Answer(f, w.cluster.deployment) case Found(d) => Some(ObserveDeployment(d, s)) case _ => None)
  }

  /** No call is made when the status read with the object already says so. */
  function WithStatus(faults: seq<Fault>, w: World, o: Resource, phase: string, message: Message): (World, bool) {
    var status := Status(phase, message, o.generation);
    if o.status == status then (w, true)
    else
      var f := FaultAt(faults, w.calls);
      (w.(calls := w.calls + 1, statusWrites := w.statusWrites + 1,
          cluster := if f.Lost? then w.cluster else w.cluster.(resource := Some(o.(status := status)))), f.Fine?)
  }

  function Reconciled(faults: seq<Fault>, w: World): (World, Finish) {
    var w0 := Called(w);
    match Answer(FaultAt(faults, w.calls), w.cluster.resource)
    case NotFound => (w0, Done(false))
    case Unavailable => (w0, Errored)
    case Found(o) =>
      var spec := Parse(o);
      if spec.None? then
        var (w1, ok) := WithStatus(faults, w0, o, "Invalid", ImageRequired);
        (w1, if ok then Done(false) else Errored)
      else if Validate(spec.value) != [] then
        var (w1, ok) := WithStatus(faults, w0, o, "Rejected", Problems(Validate(spec.value)));
        (w1, if ok then Done(false) else Errored)
      else ReconciledValid(faults, w0, o, spec.value)
  }

  function ReconciledValid(faults: seq<Fault>, w: World, o: Resource, s: WorkloadSpec): (World, Finish) {
    var (w1, outcome) := Ensured(faults, w, o, s);
    Concluded(faults, w1, o, s, outcome)
  }

  /** What follows the attempt to put the workload in place: observe it and write its status. */
  function Concluded(faults: seq<Fault>, w: World, o: Resource, s: WorkloadSpec, outcome: Outcome): (World, Finish) {
    if outcome == Panicked then (w, Crashed)
    else if outcome == Failed then (w, Errored)
    else
      var (w1, seen) := Observed(faults, w, o, s);
      if seen.None? then (w1, Errored)
      else
        var (w2, ok) := WithStatus(faults, w1, o, seen.value.phase, seen.value.message);
        (w2, if !ok then Errored else Done(!seen.value.complete))
  }

  // ---- The operator ----------------------------------------------------------------------------------

  /** The API server's objects, written in place; the k-th call meets the k-th fault. */
  class ApiServer {
    const faults: seq<Fault>
    var resource: Option<Resource>
    var deployment: Option<Deployment>
    var service: Option<Service>
    var job: Option<Job>
    var calls: nat
    ghost var writes: seq<WorkloadSpec>
    ghost var statusWrites: nat

    constructor (faults: seq<Fault>, cluster: Cluster)
      ensures this.faults == faults && Abs() == World(cluster, 0, [], 0)
    {
      this.faults := faults;
      resource, deployment, service, job := cluster.resource, cluster.deployment, cluster.service, cluster.job;
      calls, writes, statusWrites := 0, [], 0;
    }

    ghost function Abs(): World
      reads this
    {
      World(Cluster(resource, deployment, service, job), calls, writes, statusWrites)
    }

    method Call() returns (f: Fault)
      modifies this
      ensures f == FaultAt(faults, old(calls)) && Abs() == Called(old(Abs()))
    {
      f := FaultAt(faults, calls);
      calls := calls + 1;
    }

    method WriteDeployment(d: Deployment, ghost s: WorkloadSpec) returns (outcome: Outcome)
      modifies this
      ensures (Abs(), outcome) == PutDeployment(faults, old(Abs()), d, s)
    {
      var f := Call();
      writes := writes + [s];
      if !f.Lost? {
        deployment := Some(d);
      }
      outcome := Wrote(f);
    }

    method WriteService(v: Service, ghost s: WorkloadSpec) returns (outcome: Outcome)
      modifies this
      ensures (Abs(), outcome) == PutService(faults, old(Abs()), v, s)
    {
      var f := Call();
      writes := writes + [s];
      if !f.Lost? {
        service := Some(v);
      }
      outcome := Wrote(f);
    }

    method CreateJob(j: Job, ghost s: WorkloadSpec) returns (outcome: Outcome)
      modifies this
      ensures (Abs(), outcome) == PutJob(faults, old(Abs()), j, s)
    {
      var f := Call();
      writes := writes + [s];
      if !f.Lost? {
        job := Some(j);
      }
      outcome := Wrote(f);
    }
  }

  class Operator {
    const api: ApiServer

    constructor (api: ApiServer)
      ensures this.api == api
    {
      this.api := api;
    }

    method ReconcileDeployment(o: Resource, s: WorkloadSpec) returns (outcome: Outcome)
      modifies api
      ensures (api.Abs(), outcome) == EnsuredDeployment(api.faults, old(api.Abs()), o, s)
    {
      var f := api.Call();
      if !QuantitiesParse(s) {
        return Panicked;
      }
      match Answer(f, api.deployment) {
        case NotFound => outcome := api.WriteDeployment(NewDeployment(o, s), s);
        case Unavailable => outcome := Failed;
        case Found(d) => outcome := api.WriteDeployment(UpdatedDeployment(d, o, s), s);
      }
    }

    method ReconcileService(o: Resource, s: WorkloadSpec) returns (outcome: Outcome)
      modifies api
      ensures (api.Abs(), outcome) == EnsuredService(api.faults, old(api.Abs()), o, s)
    {
      var f := api.Call();
      match Answer(f, api.service) {
        case NotFound => outcome := api.WriteService(NewService(o, s), s);
        case Unavailable => outcome := Failed;
        case Found(v) => outcome := api.WriteService(UpdatedService(v, o, s), s);
      }
    }

    method ReconcileJob(o: Resource, s: WorkloadSpec) returns (outcome: Outcome)
      modifies api
      ensures (api.Abs(), outcome) == EnsuredJob(api.faults, old(api.Abs()), o, s)
    {
      var f := api.Call();
      match Answer(f, api.job) {
        case Found(_) => outcome := Succeeded;
        case Unavailable => outcome := Failed;
        case NotFound =>
          if !QuantitiesParse(s) {
            return Panicked;
          }
          outcome := api.CreateJob(NewJob(o, s), s);
      }
    }

    method EnsureWorkload(o: Resource, s: WorkloadSpec) returns (outcome: Outcome)
      modifies api
      ensures (api.Abs(), outcome) == Ensured(api.faults, old(api.Abs()), o, s)
    {
      if IsEvaluation(o) {
        outcome := ReconcileJob(o, s);
        return;
      }
      outcome := ReconcileDeployment(o, s);
      if outcome == Succeeded {
        outcome := ReconcileService(o, s);
      }
    }

    method ObservedState(o: Resource, s: WorkloadSpec) returns (seen: Option<Observation>)
      modifies api
      ensures (api.Abs(), seen) == Observed(api.faults, old(api.Abs()), o, s)
    {
      var f := api.Call();
      if IsEvaluation(o) {
        var job := Answer(f, api.job);
        return if job.Found? then Some(ObserveJob(job.value)) else None;
      }
      var deployment := Answer(f, api.deployment);
      return if deployment.Found? then Some(ObserveDeployment(deployment.value, s)) else None;
    }

    method SetStatus(o: Resource, phase: string, message: Message) returns (ok: bool)
      modifies api
      ensures (api.Abs(), ok) == WithStatus(api.faults, old(api.Abs()), o, phase, message)
    {
      if o.status.phase == phase && o.status.message == message && o.status.observedGeneration == o.generation {
        return true;
      }
      var f := api.Call();
      api.statusWrites := api.statusWrites + 1;
      if !f.Lost? {
        api.resource := Some(o.(status := Status(phase, message, o.generation)));
      }
      return f.Fine?;
    }

    method ReconcileSpec(o: Resource, s: WorkloadSpec) returns (finish: Finish)
      modifies api
      ensures (api.Abs(), finish) == ReconciledValid(api.faults, old(api.Abs()), o, s)
    {
      var outcome := EnsureWorkload(o, s);
      if outcome == Panicked {
        return Crashed;
      }
      if outcome == Failed {
        return Errored;
      }
      var seen := ObservedState(o, s);
      if seen.None? {
        return Errored;
      }
      var ok := SetStatus(o, seen.value.phase, seen.value.message);
      return if ok then Done(!seen.value.complete) else Errored;
    }

    method Reconcile() returns (finish: Finish)
      modifies api
      ensures (api.Abs(), finish) == Reconciled(api.faults, old(api.Abs()))
    {
      var f := api.Call();
      var lookup := Answer(f, api.resource);
      if lookup.NotFound? {
        return Done(false);
      }
      if lookup.Unavailable? {
        return Errored;
      }
      var o := lookup.value;
      var spec := Parse(o);
      if spec.None? {
        var ok := SetStatus(o, "Invalid", ImageRequired);
        return if ok then Done(false) else Errored;
      }
      var problems := Validate(spec.value);
      if problems != [] {
        var ok := SetStatus(o, "Rejected", Problems(problems));
        return if ok then Done(false) else Errored;
      }
      finish := ReconcileSpec(o, spec.value);
    }
  }
}
