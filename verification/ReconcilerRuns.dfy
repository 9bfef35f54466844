/** Convergence of the operator under failures, and what it never does. */
module ReconcilerRuns {
  import opened Common
  import opened Reconciler

  ghost function Cold(c: Cluster): World {
    World(c, 0, [], 0)
  }

  /** One attempt against a cluster: what it leaves, and how it ends. */
  ghost function Attempt(faults: seq<Fault>, c: Cluster): Cluster {
    Reconciled(faults, Cold(c)).0.cluster
  }

  ghost function Ending(faults: seq<Fault>, c: Cluster): Finish {
    Reconciled(faults, Cold(c)).1
  }

  /** The resource asks for something the operator will try to bring about. */
  ghost predicate Acceptable(o: Resource) {
    Parse(o).Some? && Validate(Parse(o).value) == []
  }

  /** An accepted resource whose workload is a Deployment and whose quantities can be parsed. */
  ghost predicate Deployable(c: Cluster) {
    c.resource.Some? && Acceptable(c.resource.value) && !IsEvaluation(c.resource.value)
        && QuantitiesParse(Parse(c.resource.value).value)
  }

  function PlacedDeployment(d: Option<Deployment>, o: Resource, s: WorkloadSpec): Deployment {
    if d.Some? then UpdatedDeployment(d.value, o, s) else NewDeployment(o, s)
  }

  function PlacedService(v: Option<Service>, o: Resource, s: WorkloadSpec): Service {
    if v.Some? then UpdatedService(v.value, o, s) else NewService(o, s)
  }

  function PlacedJob(j: Option<Job>, o: Resource, s: WorkloadSpec): Job {
    if j.Some? then j.value else NewJob(o, s)
  }

  ghost function TargetDeployment(c: Cluster): Deployment
    requires Deployable(c)
  {
    PlacedDeployment(c.deployment, c.resource.value, Parse(c.resource.value).value)
  }

  ghost function TargetService(c: Cluster): Service
    requires Deployable(c)
  {
    PlacedService(c.service, c.resource.value, Parse(c.resource.value).value)
  }

  ghost function TargetStatus(c: Cluster): Status
    requires Deployable(c)
  {
    var seen := ObserveDeployment(TargetDeployment(c), Parse(c.resource.value).value);
    Status(seen.phase, seen.message, c.resource.value.generation)
  }

  /** A Deployment workload's goal: three objects as declared, and nothing else touched. */
  ghost function Target(c: Cluster): Cluster
    requires Deployable(c)
  {
    Cluster(Some(c.resource.value.(status := TargetStatus(c))), Some(TargetDeployment(c)), Some(TargetService(c)),
        c.job)
  }

  /** An accepted evaluation run whose Job is there or can be built. */
  ghost predicate Evaluable(c: Cluster) {
    && c.resource.Some? && Acceptable(c.resource.value) && IsEvaluation(c.resource.value)
    && (c.job.Some? || QuantitiesParse(Parse(c.resource.value).value))
  }

  ghost function TargetJob(c: Cluster): Job
    requires Evaluable(c)
  {
    PlacedJob(c.job, c.resource.value, Parse(c.resource.value).value)
  }

  ghost function JobStatus(c: Cluster): Status
    requires Evaluable(c)
  {
    var seen := ObserveJob(TargetJob(c));
    Status(seen.phase, seen.message, c.resource.value.generation)
  }

  /** What is written to the status of a resource that is not accepted. */
  function RefusedStatus(o: Resource): Status {
    if Parse(o).None? then Status("Invalid", ImageRequired, o.generation)
    else Status("Rejected", Problems(Validate(Parse(o).value)), o.generation)
  }

  /** An accepted resource whose workload cannot be built. */
  ghost predicate Stuck(c: Cluster) {
    c.resource.Some? && Acceptable(c.resource.value) && !Deployable(c) && !Evaluable(c)
  }

  /** The cluster a reconciliation aims at, whatever the resource is. */
  ghost function Goal(c: Cluster): Cluster {
    if c.resource.None? || Stuck(c) then c
    else if Deployable(c) then Target(c)
    else if Evaluable(c) then c.(resource := Some(c.resource.value.(status := JobStatus(c))), job := Some(TargetJob(c)))
    else c.(resource := Some(c.resource.value.(status := RefusedStatus(c.resource.value))))
  }

  /** How a reconciliation ends when nothing fails. */
  ghost function GoalEnding(c: Cluster): Finish {
    if Stuck(c) then Crashed
    else if Deployable(c) then Done(TargetStatus(c).phase != "Ready")
    else if Evaluable(c) then Done(!ObserveJob(TargetJob(c)).complete)
    else Done(false)
  }

  /** Each object is as it was or as it should be, and the status is written last. */
  ghost predicate Between(c: Cluster, c': Cluster, goal: Cluster) {
    && (c'.deployment == c.deployment || c'.deployment == goal.deployment)
    && (c'.service == c.service || (c'.service == goal.service && c'.deployment == goal.deployment))
    && (c'.job == c.job || c'.job == goal.job)
    && (c'.resource == c.resource || c' == goal)
  }

  ghost predicate FaultFreeFrom(faults: seq<Fault>, call: nat) {
    forall k: nat :: k >= call ==> FaultAt(faults, k).Fine?
  }

  /** One object is put in place, or the step failed with the object as it was or as it should be. */
  ghost predicate Placed(faults: seq<Fault>, w: World, w1: World, outcome: Outcome, placed: Cluster) {
    && !outcome.Panicked? && (w1.cluster == w.cluster || w1.cluster == placed)
    && (outcome.Succeeded? ==> w1.cluster == placed)
    && w1.statusWrites == w.statusWrites && w1.calls >= w.calls
    && (FaultFreeFrom(faults, w.calls) ==> outcome.Succeeded?)
  }

  lemma DeploymentPlaced(faults: seq<Fault>, w: World, o: Resource, s: WorkloadSpec)
    requires QuantitiesParse(s)
    ensures var (w1, outcome) := EnsuredDeployment(faults, w, o, s);
            Placed(faults, w, w1, outcome, w.cluster.(deployment := Some(PlacedDeployment(w.cluster.deployment, o, s))))
  {
  }

  lemma ServicePlaced(faults: seq<Fault>, w: World, o: Resource, s: WorkloadSpec)
    ensures var (w1, outcome) := EnsuredService(faults, w, o, s);
            Placed(faults, w, w1, outcome, w.cluster.(service := Some(PlacedService(w.cluster.service, o, s))))
  {
  }

  lemma JobPlaced(faults: seq<Fault>, w: World, o: Resource, s: WorkloadSpec)
    requires w.cluster.job.Some? || QuantitiesParse(s)
    ensures var (w1, outcome) := EnsuredJob(faults, w, o, s);
            Placed(faults, w, w1, outcome, w.cluster.(job := Some(PlacedJob(w.cluster.job, o, s))))
  {
  }

  /** Observing and writing the status touch nothing else, and write what was observed. */
  lemma StatusEffect(faults: seq<Fault>, w: World, o: Resource, phase: string, message: Message)
    ensures var (w1, ok) := WithStatus(faults, w, o, phase, message);
            var target := o.(status := Status(phase, message, o.generation));
            && (w.cluster.resource == Some(o) && ok ==> w1.cluster == w.cluster.(resource := Some(target)))
            && (w1.cluster == w.cluster || w1.cluster == w.cluster.(resource := Some(target)))
            && (FaultFreeFrom(faults, w.calls) ==> ok)
            && (o.status == target.status ==> w1.statusWrites == w.statusWrites)
  {
    var target := o.(status := Status(phase, message, o.generation));
    assert o.status == target.status ==> o == target;
  }

  /** The observation a workload in place gives. */
  ghost predicate Shows(c: Cluster, o: Resource, s: WorkloadSpec, seen: Observation) {
    if IsEvaluation(o) then c.job.Some? && seen == ObserveJob(c.job.value)
    else c.deployment.Some? && seen == ObserveDeployment(c.deployment.value, s)
  }

  ghost function Stamped(o: Resource, seen: Observation): Resource {
    o.(status := Status(seen.phase, seen.message, o.generation))
  }

  /** Once the workload is in place its observation is written to the status, if no call fails. */
  lemma ConcludedEffect(faults: seq<Fault>, w: World, o: Resource, s: WorkloadSpec, seen: Observation)
    requires w.cluster.resource == Some(o) && Shows(w.cluster, o, s, seen)
    ensures var (w1, finish) := Concluded(faults, w, o, s, Succeeded);
            var target := w.cluster.(resource := Some(Stamped(o, seen)));
            && !finish.Crashed? && (w1.cluster == w.cluster || w1.cluster == target)
            && (finish.Done? ==> w1.cluster == target && finish == Done(!seen.complete))
            && (FaultFreeFrom(faults, w.calls) ==> finish.Done?)
            && (o == Stamped(o, seen) ==> w1.statusWrites == w.statusWrites)
  {
    StatusEffect(faults, Called(w), o, seen.phase, seen.message);
  }

  /** What an attempt may leave of c, and how it may end. */
  ghost predicate Attempted(faults: seq<Fault>, c: Cluster, w: World, finish: Finish) {
    && Between(c, w.cluster, Goal(c))
    && (finish.Done? ==> w.cluster == Goal(c) && finish == GoalEnding(c))
    && (finish.Crashed? ==> Stuck(c))
    && (Stuck(c) ==> w.cluster == c && !finish.Done?)
    && (FaultFreeFrom(faults, 0) ==> finish == GoalEnding(c))
    && (c == Goal(c) ==> w.statusWrites == 0)
  }

  /** The first call reads the resource; an accepted one leads to its workload. */
  lemma FirstCall(faults: seq<Fault>, c: Cluster)
    ensures FaultFreeFrom(faults, 0) ==> FaultAt(faults, 0).Fine? && FaultFreeFrom(faults, 1)
    ensures !FaultAt(faults, 0).Fine? ==> Reconciled(faults, Cold(c)) == (Called(Cold(c)), Errored)
    ensures FaultAt(faults, 0).Fine? && c.resource.Some? && Acceptable(c.resource.value) ==>
              Reconciled(faults, Cold(c)) == ReconciledValid(faults, Called(Cold(c)), c.resource.value,
                  Parse(c.resource.value).value)
  {
  }

  /** A workload step that kept between the cluster and a goal, and what there then is to see. */
  ghost predicate Ready(faults: seq<Fault>, c: Cluster, goal: Cluster, o: Resource, s: WorkloadSpec, seen: Observation,
      w: World, outcome: Outcome) {
    && !outcome.Panicked? && Between(c, w.cluster, goal) && w.cluster.resource == c.resource == Some(o)
    && w.statusWrites == 0 && goal.resource == Some(Stamped(o, seen))
    && (outcome.Succeeded? ==> w.cluster == goal.(resource := c.resource) && Shows(w.cluster, o, s, seen))
    && (FaultFreeFrom(faults, 0) ==> outcome.Succeeded?)
  }

  /** What an attempt that aims at a goal may leave, and how it may end. */
  ghost predicate AimedAt(faults: seq<Fault>, c: Cluster, goal: Cluster, ending: Finish, w: World, finish: Finish) {
    && Between(c, w.cluster, goal) && !finish.Crashed?
    && (finish.Done? ==> w.cluster == goal && finish == ending)
    && (FaultFreeFrom(faults, 0) ==> finish == ending)
    && (c == goal ==> w.statusWrites == 0)
  }

  /** From such a step to the whole attempt. */
  lemma ConcludedAttempt(faults: seq<Fault>, c: Cluster, goal: Cluster, o: Resource, s: WorkloadSpec,
      seen: Observation, w: World, outcome: Outcome)
    requires Ready(faults, c, goal, o, s, seen, w, outcome)
    ensures var (w1, finish) := Concluded(faults, w, o, s, outcome);
            AimedAt(faults, c, goal, Done(!seen.complete), w1, finish)
  {
    if outcome.Succeeded? {
      ConcludedEffect(faults, w, o, s, seen);
      assert FaultFreeFrom(faults, 0) ==> FaultFreeFrom(faults, w.calls);
    }
  }

  /** Deployment, then Service. */
  lemma DeploymentReady(faults: seq<Fault>, c: Cluster, o: Resource, s: WorkloadSpec, seen: Observation)
      returns (w: World, outcome: Outcome)
    requires c.resource == Some(o) && !IsEvaluation(o) && QuantitiesParse(s)
    requires seen == ObserveDeployment(PlacedDeployment(c.deployment, o, s), s)
    ensures Ready(faults, c, Cluster(Some(Stamped(o, seen)), Some(PlacedDeployment(c.deployment, o, s)),
                Some(PlacedService(c.service, o, s)), c.job), o, s, seen, w, outcome)
    ensures Ensured(faults, Called(Cold(c)), o, s) == (w, outcome)
  {
    var w0 := Called(Cold(c));
    DeploymentPlaced(faults, w0, o, s);
    assert FaultFreeFrom(faults, 0) ==> FaultFreeFrom(faults, w0.calls);
    var (w1, first) := EnsuredDeployment(faults, w0, o, s);
    w, outcome := w1, first;
    if first.Succeeded? {
      ServicePlaced(faults, w1, o, s);
      assert FaultFreeFrom(faults, w0.calls) ==> FaultFreeFrom(faults, w1.calls);
      var (w2, second) := EnsuredService(faults, w1, o, s);
      w, outcome := w2, second;
    }
  }

  lemma EvaluationReady(faults: seq<Fault>, c: Cluster, o: Resource, s: WorkloadSpec, seen: Observation)
      returns (w: World, outcome: Outcome)
    requires c.resource == Some(o) && IsEvaluation(o) && (c.job.Some? || QuantitiesParse(s))
    requires seen == ObserveJob(PlacedJob(c.job, o, s))
    ensures Ready(faults, c, c.(resource := Some(Stamped(o, seen)), job := Some(PlacedJob(c.job, o, s))), o, s, seen,
                w, outcome)
    ensures Ensured(faults, Called(Cold(c)), o, s) == (w, outcome)
  {
    var w0 := Called(Cold(c));
    JobPlaced(faults, w0, o, s);
    assert FaultFreeFrom(faults, 0) ==> FaultFreeFrom(faults, w0.calls);
    var (w1, first) := EnsuredJob(faults, w0, o, s);
    w, outcome := w1, first;
  }

  lemma DeploymentConcluded(faults: seq<Fault>, c: Cluster, o: Resource, s: WorkloadSpec, seen: Observation)
    requires c.resource == Some(o) && !IsEvaluation(o) && QuantitiesParse(s)
    requires seen == ObserveDeployment(PlacedDeployment(c.deployment, o, s), s)
    ensures var (w, finish) := ReconciledValid(faults, Called(Cold(c)), o, s);
            AimedAt(faults, c, Cluster(Some(Stamped(o, seen)), Some(PlacedDeployment(c.deployment, o, s)),
                Some(PlacedService(c.service, o, s)), c.job), Done(!seen.complete), w, finish)
  {
    var goal := Cluster(Some(Stamped(o, seen)), Some(PlacedDeployment(c.deployment, o, s)),
        Some(PlacedService(c.service, o, s)), c.job);
    var w1, outcome := DeploymentReady(faults, c, o, s, seen);
    ConcludedAttempt(faults, c, goal, o, s, seen, w1, outcome);
  }

  lemma EvaluationConcluded(faults: seq<Fault>, c: Cluster, o: Resource, s: WorkloadSpec, seen: Observation)
    requires c.resource == Some(o) && IsEvaluation(o) && (c.job.Some? || QuantitiesParse(s))
    requires seen == ObserveJob(PlacedJob(c.job, o, s))
    ensures var (w, finish) := ReconciledValid(faults, Called(Cold(c)), o, s);
            AimedAt(faults, c, c.(resource := Some(Stamped(o, seen)), job := Some(PlacedJob(c.job, o, s))),
                Done(!seen.complete), w, finish)
  {
    var goal := c.(resource := Some(Stamped(o, seen)), job := Some(PlacedJob(c.job, o, s)));
    var w1, outcome := EvaluationReady(faults, c, o, s, seen);
    ConcludedAttempt(faults, c, goal, o, s, seen, w1, outcome);
  }

  lemma DeploymentAttempted(faults: seq<Fault>, c: Cluster)
    requires Deployable(c) && FaultAt(faults, 0).Fine?
    ensures AimedAt(faults, c, Goal(c), GoalEnding(c), Reconciled(faults, Cold(c)).0, Ending(faults, c))
  {
    var o := c.resource.value;
    var s := Parse(o).value;
    FirstCall(faults, c);
    DeploymentConcluded(faults, c, o, s, ObserveDeployment(PlacedDeployment(c.deployment, o, s), s));
  }

  lemma EvaluationAttempted(faults: seq<Fault>, c: Cluster)
    requires Evaluable(c) && FaultAt(faults, 0).Fine?
    ensures AimedAt(faults, c, Goal(c), GoalEnding(c), Reconciled(faults, Cold(c)).0, Ending(faults, c))
  {
    var o := c.resource.value;
    var s := Parse(o).value;
    FirstCall(faults, c);
    EvaluationConcluded(faults, c, o, s, ObserveJob(PlacedJob(c.job, o, s)));
  }

  lemma RefusalConcluded(faults: seq<Fault>, c: Cluster, o: Resource, status: Status)
    requires c.resource == Some(o) && status.observedGeneration == o.generation
    ensures var (w, ok) := WithStatus(faults, Called(Cold(c)), o, status.phase, status.message);
            AimedAt(faults, c, c.(resource := Some(o.(status := status))), Done(false), w,
                if ok then Done(false) else Errored)
  {
    StatusEffect(faults, Called(Cold(c)), o, status.phase, status.message);
    assert FaultFreeFrom(faults, 0) ==> FaultFreeFrom(faults, 1);
  }

  lemma RefusalAttempted(faults: seq<Fault>, c: Cluster)
    requires c.resource.Some? && !Acceptable(c.resource.value) && FaultAt(faults, 0).Fine?
    ensures AimedAt(faults, c, Goal(c), GoalEnding(c), Reconciled(faults, Cold(c)).0, Ending(faults, c))
  {
    RefusalConcluded(faults, c, c.resource.value, RefusedStatus(c.resource.value));
  }

  /** The panic comes before any write. */
  lemma StuckEnsured(faults: seq<Fault>, w: World, o: Resource, s: WorkloadSpec) returns (outcome: Outcome)
    requires !QuantitiesParse(s) && (IsEvaluation(o) ==> w.cluster.job.None?)
    ensures Ensured(faults, w, o, s) == (Called(w), outcome)
    ensures !outcome.Succeeded? && (FaultAt(faults, w.calls).Fine? ==> outcome.Panicked?)
  {
    var end := Ensured(faults, w, o, s);
    outcome := end.1;
  }

  lemma StuckAttempted(faults: seq<Fault>, c: Cluster)
    requires Stuck(c) && FaultAt(faults, 0).Fine?
    ensures var (w, finish) := Reconciled(faults, Cold(c));
            w == Called(Called(Cold(c))) && !finish.Done? && (FaultAt(faults, 1).Fine? ==> finish.Crashed?)
  {
    FirstCall(faults, c);
    var outcome := StuckEnsured(faults, Called(Cold(c)), c.resource.value, Parse(c.resource.value).value);
  }

  /** Whatever the resource asks for and whatever fails, an attempt stays between the cluster and its goal. */
  lemma AttemptIsBetween(faults: seq<Fault>, c: Cluster)
    ensures Attempted(faults, c, Reconciled(faults, Cold(c)).0, Ending(faults, c))
  {
    FirstCall(faults, c);
    if c.resource.Some? && FaultAt(faults, 0).Fine? {
      if !Acceptable(c.resource.value) {
        RefusalAttempted(faults, c);
      } else if Deployable(c) {
        DeploymentAttempted(faults, c);
      } else if Evaluable(c) {
        EvaluationAttempted(faults, c);
      } else {
        StuckAttempted(faults, c);
      }
    }
  }

  lemma FaultFreeFinishes(c: Cluster)
    ensures Attempt([], c) == Goal(c) && Ending([], c) == GoalEnding(c)
  {
    AttemptIsBetween([], c);
    assert FaultFreeFrom([], 0);
  }

  /** The status is no part of what a resource asks for. */
  lemma StatusIsNoDemand(o: Resource, status: Status)
    ensures Parse(o.(status := status)) == Parse(o)
  {
  }

  lemma DeploymentTargetIsStable(c: Cluster, c': Cluster)
    requires Deployable(c) && Between(c, c', Target(c))
    ensures Deployable(c') && Target(c') == Target(c)
  {
    StatusIsNoDemand(c.resource.value, TargetStatus(c));
    assert TargetDeployment(c') == TargetDeployment(c);
    assert TargetService(c') == TargetService(c);
    assert TargetStatus(c') == TargetStatus(c);
  }

  lemma JobTargetIsStable(c: Cluster, c': Cluster)
    requires Evaluable(c) && Between(c, c', Goal(c))
    ensures Evaluable(c') && Goal(c') == Goal(c)
  {
    StatusIsNoDemand(c.resource.value, JobStatus(c));
    assert TargetJob(c') == TargetJob(c);
  }

  /** Aiming again from anywhere in between aims at the same cluster. */
  lemma TargetIsStable(c: Cluster, c': Cluster)
    requires Between(c, c', Goal(c))
    ensures Goal(c') == Goal(c)
  {
    if Deployable(c) {
      DeploymentTargetIsStable(c, c');
    } else if Evaluable(c) {
      JobTargetIsStable(c, c');
    } else if c.resource.Some? {
      StatusIsNoDemand(c.resource.value, RefusedStatus(c.resource.value));
    }
  }

  /** A deployment reconciliation that returns without error has established what was declared. */
  lemma DoneMeansDeclared(faults: seq<Fault>, c: Cluster)
    requires Deployable(c) && Ending(faults, c).Done?
    ensures var o, c' := c.resource.value, Attempt(faults, c);
            var s := Parse(o).value;
            && c'.deployment.Some? && c'.deployment.value.spec == DesiredSpec(o, s)
            && c'.deployment.value.labels == LabelsFor(o) && c'.deployment.value.owner == OwnerOf(o)
            && c'.service.Some? && c'.service.value.selector == LabelsFor(o) && c'.service.value.port == s.port
            && c'.job == c.job
  {
    AttemptIsBetween(faults, c);
  }

  /** Repeating a reconciliation that ended without error alters no object and writes no status. */
  lemma Idempotent(faults: seq<Fault>, c: Cluster)
    requires Ending(faults, c).Done?
    ensures Attempt([], Attempt(faults, c)) == Attempt(faults, c)
    ensures Reconciled([], Cold(Attempt(faults, c))).0.statusWrites == 0
  {
    AttemptIsBetween(faults, c);
    TargetIsStable(c, Attempt(faults, c));
    AttemptIsBetween([], Attempt(faults, c));
    FaultFreeFinishes(Attempt(faults, c));
  }

  /** The cluster after a series of attempts, each with its own faults. */
  ghost function Attempts(runs: seq<seq<Fault>>, c: Cluster): Cluster {
    if runs == [] then c else Attempt(runs[|runs| - 1], Attempts(runs[..|runs| - 1], c))
  }

  /**
   Convergence: after any number of attempts failing at any calls, before or after they took effect,
   one attempt without a failure reaches the cluster that an undisturbed first attempt would have.
   */
  lemma {:induction false} RetriesConverge(runs: seq<seq<Fault>>, c: Cluster)
    ensures Goal(Attempts(runs, c)) == Goal(c)
    ensures Attempt([], Attempts(runs, c)) == Attempt([], c)
  {
    if runs != [] {
      var n := |runs| - 1;
      RetriesConverge(runs[..n], c);
      var before := Attempts(runs[..n], c);
      AttemptIsBetween(runs[n], before);
      TargetIsStable(before, Attempts(runs, c));
    }
    FaultFreeFinishes(c);
    FaultFreeFinishes(Attempts(runs, c));
  }

  ghost predicate AllAre(writes: seq<WorkloadSpec>, s: WorkloadSpec) {
    forall i :: 0 <= i < |writes| ==> writes[i] == s
  }

  lemma EnsuringWrites(faults: seq<Fault>, w: World, o: Resource, s: WorkloadSpec)
    requires AllAre(w.writes, s)
    ensures AllAre(EnsuredDeployment(faults, w, o, s).0.writes, s)
    ensures AllAre(EnsuredService(faults, w, o, s).0.writes, s)
    ensures AllAre(EnsuredJob(faults, w, o, s).0.writes, s)
  {
  }

  lemma WritesAreOf(faults: seq<Fault>, w: World, o: Resource, s: WorkloadSpec)
    requires AllAre(w.writes, s)
    ensures AllAre(Ensured(faults, w, o, s).0.writes, s)
  {
    EnsuringWrites(faults, w, o, s);
    EnsuringWrites(faults, EnsuredDeployment(faults, w, o, s).0, o, s);
  }

  /** Only the workload step writes workloads. */
  lemma WritesEnd(faults: seq<Fault>, w: World, o: Resource, s: WorkloadSpec)
    ensures ReconciledValid(faults, w, o, s).0.writes == Ensured(faults, w, o, s).0.writes
  {
  }

  /** Apart from the resource's status nothing differs. */
  ghost predicate OnlyStatus(w: World, w': World) {
    w'.writes == w.writes && w'.cluster == w.cluster.(resource := w'.cluster.resource)
  }

  lemma StatusIsAll(faults: seq<Fault>, w: World, o: Resource, phase: string, message: Message)
    ensures OnlyStatus(w, WithStatus(faults, w, o, phase, message).0)
  {
  }

  /** An attempt at most writes a status unless it reads an acceptable resource. */
  lemma AttemptSplits(faults: seq<Fault>, c: Cluster)
    ensures var w := Reconciled(faults, Cold(c)).0;
            OnlyStatus(Cold(c), w)
            || (c.resource.Some? && Acceptable(c.resource.value)
                && Reconciled(faults, Cold(c)) == ReconciledValid(faults, Called(Cold(c)), c.resource.value,
                   Parse(c.resource.value).value))
  {
    if c.resource.Some? {
      var o := c.resource.value;
      StatusIsAll(faults, Called(Cold(c)), o, "Invalid", ImageRequired);
      if Parse(o).Some? {
        StatusIsAll(faults, Called(Cold(c)), o, "Rejected", Problems(Validate(Parse(o).value)));
      }
    }
  }

  /** Every attempted workload write is for the declared spec, and Validate accepts it. */
  lemma OnlyValidSpecsAreWritten(faults: seq<Fault>, c: Cluster, s: WorkloadSpec)
    requires s in Reconciled(faults, Cold(c)).0.writes
    ensures c.resource.Some? && Parse(c.resource.value) == Some(s) && Validate(s) == []
  {
    AttemptSplits(faults, c);
    WritesAreOf(faults, Called(Cold(c)), c.resource.value, Parse(c.resource.value).value);
    WritesEnd(faults, Called(Cold(c)), c.resource.value, Parse(c.resource.value).value);
  }

  /** A Job that exists is never modified, by any attempt; other attempts touch no Job at all. */
  lemma ExistingJobsAreKept(faults: seq<Fault>, c: Cluster)
    requires c.job.Some?
    ensures Attempt(faults, c).job == c.job
  {
    AttemptSplits(faults, c);
    if c.resource.Some? && Parse(c.resource.value).Some? {
      JobKept(faults, Called(Cold(c)), c.resource.value, Parse(c.resource.value).value);
    }
  }

  lemma JobKept(faults: seq<Fault>, w: World, o: Resource, s: WorkloadSpec)
    requires w.cluster.job.Some?
    ensures ReconciledValid(faults, w, o, s).0.cluster.job == w.cluster.job
  {
    assert EnsuredDeployment(faults, w, o, s).0.cluster.job == w.cluster.job;
    assert Ensured(faults, w, o, s).0.cluster.job == w.cluster.job;
  }

  /** An accepted evaluation run that finishes without error has its Job, created from its spec if absent. */
  lemma EvaluationsGetTheirJob(faults: seq<Fault>, c: Cluster)
    requires c.resource.Some? && Acceptable(c.resource.value) && IsEvaluation(c.resource.value)
             && Ending(faults, c).Done?
    ensures Attempt(faults, c).job == Some(if c.job.Some? then c.job.value
            else NewJob(c.resource.value, Parse(c.resource.value).value))
    ensures Attempt(faults, c).deployment == c.deployment && Attempt(faults, c).service == c.service
  {
    AttemptIsBetween(faults, c);
  }

  /**
   An accepted resource converges exactly when its quantities parse or, for an evaluation run, its
   Job is already there: otherwise every attempt that gets as far panics before any write, and the
   cluster never changes.
   */
  lemma ConvergesIffQuantitiesParse(c: Cluster)
    requires c.resource.Some? && Acceptable(c.resource.value)
    ensures Ending([], c).Done? <==>
              QuantitiesParse(Parse(c.resource.value).value) || (IsEvaluation(c.resource.value) && c.job.Some?)
    ensures !Ending([], c).Done? ==> forall faults :: Attempt(faults, c) == c && !Ending(faults, c).Done?
  {
    FaultFreeFinishes(c);
    forall faults | Stuck(c)
      ensures Attempt(faults, c) == c && !Ending(faults, c).Done?
    {
      AttemptIsBetween(faults, c);
    }
  }

  /** What the resource declares, defaults included. */
  function DeclaredReplicas(o: Resource): int {
    if o.replicas.Some? then o.replicas.value else 1
  }

  function DeclaredPort(o: Resource): int {
    if o.port.Some? then o.port.value else 8000
  }

  /** Exactly which resources are accepted: counts and ports are only checked modulo 2^32. */
  lemma AcceptableIff(o: Resource)
    ensures Acceptable(o) <==>
            && Pinned(o.image) && o.approved
            && 1 <= DeclaredReplicas(o) % 0x1_0000_0000 <= 100 && 1 <= DeclaredPort(o) % 0x1_0000_0000 <= 65535
            && o.cpuRequest.text != "" && o.memoryRequest.text != "" && o.cpuLimit.text != ""
               && o.memoryLimit.text != ""
  {
    Int32Range(DeclaredReplicas(o), 100);
    Int32Range(DeclaredPort(o), 65535);
    if o.image == "" {
      assert !Pinned(o.image);
    } else {
      ValidateIff(Parse(o).value);
    }
  }

  lemma ValidateIff(s: WorkloadSpec)
    ensures Validate(s) == [] <==>
            && Pinned(s.image) && s.approved && 1 <= s.replicas <= 100 && 1 <= s.port <= 65535
            && s.cpuRequest.text != "" && s.memoryRequest.text != "" && s.cpuLimit.text != ""
               && s.memoryLimit.text != ""
  {
    assert Validate(s) == [] <==> |Validate(s)| == 0;
  }

  lemma Int32Range(n: int, high: int)
    requires 1 <= high < 0x8000_0000
    ensures 1 <= Int32(n) <= high <==> 1 <= n % 0x1_0000_0000 <= high
  {
  }

  /** An accepted resource runs the replicas it declares exactly when it declares a number of at most 100. */
  lemma DeclaredReplicasRunIff(o: Resource)
    requires Acceptable(o)
    ensures Parse(o).value.replicas == DeclaredReplicas(o) <==> 1 <= DeclaredReplicas(o) <= 100
  {
    AcceptableIff(o);
    Int32Range(DeclaredReplicas(o), 100);
    ValidateIff(Parse(o).value);
  }

  /** So a count far outside 1..100 is accepted and deployed as its low 32 bits. */
  lemma OversizedReplicasAreAccepted(o: Resource) returns (o': Resource)
    requires Acceptable(o)
    ensures o'.kind == "AgentDeployment" && o'.replicas == Some(0x1_0000_0001) && Acceptable(o')
            && Parse(o').value.replicas == 1
  {
    o' := o.(kind := "AgentDeployment", replicas := Some(0x1_0000_0001));
    AcceptableIff(o);
    AcceptableIff(o');
  }
}
