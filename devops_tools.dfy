/**
 * The in-memory state of the devops-tools extension: pipelines, deployments
 * and environments, and the commands that prepend, append, filter and update
 * their records.  Quick-pick and input-box answers, clock readings and random
 * draws are parameters; time stamps are milliseconds since the epoch.
 */
module DevOps {

  import opened Text
  import opened Wrappers

  // ---------------------------------------------------------------------------
  // Records

  /** The status of a pipeline, a stage or a job. */
  datatype RunStatus = Running | Success | Failed | Pending

  datatype Job = Job(id: string, name: string, status: RunStatus, startedAt: int,
                     completedAt: Option<int>, duration: Option<nat>)

  datatype Stage = Stage(id: string, name: string, status: RunStatus, startedAt: int,
                         completedAt: Option<int>, jobs: seq<Job>)

  datatype Pipeline = Pipeline(id: string, name: string, status: RunStatus, branch: string,
                               commit: string, startedAt: int, completedAt: Option<int>,
                               stages: seq<Stage>)

  datatype DeploymentStatus = Deploying | Deployed | DeployFailed | RollingBack | RolledBack

  datatype Strategy = Rolling | BlueGreen | Canary

  datatype Deployment = Deployment(id: string, application: string, environment: string,
                                   version: string, status: DeploymentStatus, strategy: Strategy,
                                   startedAt: int, completedAt: Option<int>, deployer: string,
                                   commit: string)

  datatype EnvironmentType = Development | Staging | Production

  datatype EnvironmentStatus = Online | Offline | Maintenance

  datatype Resources = Resources(cpu: nat, memory: nat, instances: nat)

  datatype Environment = Environment(id: string, name: string, kind: EnvironmentType, url: string,
                                     status: EnvironmentStatus, lastDeployment: Option<int>,
                                     resources: Resources)

  /** An input-box or quick-pick answer that the command accepts: given and not the empty string. */
  predicate Given(answer: Option<string>)
  {
    answer.Some? && answer.value != ""
  }

  // ---------------------------------------------------------------------------
  // Pipelines

  /** The record `runPipeline` creates: two stages of two jobs, the first job running. */
  function NewPipeline(name: string, branch: string, commit: string, now: nat): (p: Pipeline)
    ensures p.name == name && p.branch == branch && p.commit == commit
    ensures p.status == Running && p.startedAt == now && p.completedAt.None?
    ensures |p.stages| == 2 && p.stages[0].status == Running && p.stages[1].status == Pending
    ensures forall i, j :: 0 <= i < |p.stages| && 0 <= j < |p.stages[i].jobs| ==>
      (p.stages[i].jobs[j].status == Running <==> i == 0 && j == 0)
      && p.stages[i].jobs[j].status in {Running, Pending}
      && p.stages[i].jobs[j].completedAt.None?
  {
    var stamp := NatToString(now);
    var jobId := (k: string) => "job-" + stamp + "-" + k;
    Pipeline("pipeline-" + stamp, name, Running, branch, commit, now, None, [
      Stage("stage-" + stamp + "-1", "Build", Running, now, None, [
        Job(jobId("1"), "Compile", Running, now, None, None),
        Job(jobId("2"), "Test", Pending, now, None, None)
      ]),
      Stage("stage-" + stamp + "-2", "Deploy", Pending, now, None, [
        Job(jobId("3"), "Staging", Pending, now, None, None),
        Job(jobId("4"), "Production", Pending, now, None, None)
      ])
    ])
  }

  /** `Math.floor(Math.random() * 120) + 30`: the draw is the floored product. */
  const DrawBound := 120
  const MinDuration := 30
  const MaxDuration := MinDuration + DrawBound - 1

  /** One random draw per job, each below the bound. */
  predicate DrawsFit(p: Pipeline, draws: seq<seq<nat>>)
  {
    |draws| == |p.stages|
    && (forall i :: 0 <= i < |draws| ==> |draws[i]| == |p.stages[i].jobs|)
    && forall i :: 0 <= i < |draws| ==> forall d :: d in draws[i] ==> d < DrawBound
  }

  /** Two jobs that are the same job, whatever their progress. */
  predicate SameJob(a: Job, b: Job)
  {
    a.id == b.id && a.name == b.name && a.startedAt == b.startedAt
  }

  predicate SameStage(a: Stage, b: Stage)
  {
    a.id == b.id && a.name == b.name && a.startedAt == b.startedAt && |a.jobs| == |b.jobs|
    && forall k :: 0 <= k < |a.jobs| ==> SameJob(a.jobs[k], b.jobs[k])
  }

  /** Two pipelines that are the same run, whatever its progress. */
  predicate SameOutline(a: Pipeline, b: Pipeline)
  {
    a.id == b.id && a.name == b.name && a.branch == b.branch && a.commit == b.commit
    && a.startedAt == b.startedAt && |a.stages| == |b.stages|
    && forall k :: 0 <= k < |a.stages| ==> SameStage(a.stages[k], b.stages[k])
  }

  predicate JobFinished(j: Job, finished: int)
  {
    j.status == Success && j.completedAt == Some(finished) && j.duration.Some?
    && MinDuration <= j.duration.value <= MaxDuration
  }

  predicate StageFinished(s: Stage, finished: int)
  {
    s.status == Success && s.completedAt == Some(finished)
    && forall j :: j in s.jobs ==> JobFinished(j, finished)
  }

  /** The pipeline, every stage and every job succeeded with their completion time set. */
  predicate Finished(p: Pipeline, finished: int)
  {
    p.status == Success && p.completedAt == Some(finished)
    && forall s :: s in p.stages ==> StageFinished(s, finished)
  }

  /**
   * The second phase of `runPipeline`: the pipeline, then each stage, then
   * each of its jobs succeeds at `finished`; job `j` of stage `i` takes
   * `draws[i][j] + 30` seconds.
   */
  method CompletePipeline(p: Pipeline, finished: int, draws: seq<seq<nat>>) returns (q: Pipeline)
    requires DrawsFit(p, draws)
    ensures SameOutline(q, p)
    ensures Finished(q, finished)
    ensures forall i, j :: 0 <= i < |q.stages| && 0 <= j < |q.stages[i].jobs| ==>
      q.stages[i].jobs[j].duration == Some(draws[i][j] + MinDuration)
  {
    var stages := p.stages;
    var i := 0;
    while i < |stages|
      invariant i <= |stages| == |p.stages|
      invariant forall k :: 0 <= k < i ==> SameStage(stages[k], p.stages[k]) && StageFinished(stages[k], finished)
      invariant forall k :: 0 <= k < i ==> forall m :: 0 <= m < |stages[k].jobs| ==>
        stages[k].jobs[m].duration == Some(draws[k][m] + MinDuration)
      invariant forall k :: i <= k < |stages| ==> stages[k] == p.stages[k]
    {
      var stage := stages[i].(status := Success, completedAt := Some(finished));
      var jobs := stage.jobs;
      var j := 0;
      while j < |jobs|
        invariant j <= |jobs| == |p.stages[i].jobs| == |draws[i]|
        invariant forall m :: 0 <= m < j ==> SameJob(jobs[m], p.stages[i].jobs[m]) && JobFinished(jobs[m], finished)
        invariant forall m :: 0 <= m < j ==> jobs[m].duration == Some(draws[i][m] + MinDuration)
        invariant forall m :: j <= m < |jobs| ==> jobs[m] == p.stages[i].jobs[m]
      {
        assert draws[i][j] in draws[i];
        jobs := jobs[j := jobs[j].(status := Success, completedAt := Some(finished),
                                   duration := Some(draws[i][j] + MinDuration))];
        j := j + 1;
      }
      stages := stages[i := stage.(jobs := jobs)];
      i := i + 1;
    }
    q := p.(status := Success, completedAt := Some(finished), stages := stages);
  }

  // ---------------------------------------------------------------------------
  // Deployments

  /** The record `deployApplication` creates, still deploying. */
  function NewDeployment(application: string, environment: string, version: string,
                         strategy: Strategy, commit: string, now: nat): (d: Deployment)
    ensures d.application == application && d.environment == environment && d.version == version
    ensures d.strategy == strategy && d.commit == commit && d.startedAt == now
    ensures d.status == Deploying && d.completedAt.None?
  {
    Deployment("deploy-" + NatToString(now), application, environment, version, Deploying,
               strategy, now, None, "Current User", commit)
  }

  /** `environments.find(e => e.name === name)`: the index of the first environment with that name. */
  function FirstNamed(envs: seq<Environment>, name: string): (r: Option<nat>)
    ensures r.Some? ==> r.value < |envs| && envs[r.value].name == name
    ensures r.Some? ==> forall k :: 0 <= k < r.value ==> envs[k].name != name
    ensures r.None? ==> forall k :: 0 <= k < |envs| ==> envs[k].name != name
  {
    if envs == [] then None
    else if envs[0].name == name then Some(0)
    else
      var r := FirstNamed(envs[1..], name);
      assert forall k :: 1 <= k < |envs| ==> envs[k] == envs[1..][k - 1];
      if r.None? then None else Some(r.value + 1)
  }

  /** The environments after a deployment to `name` at time `t`. */
  function Stamped(envs: seq<Environment>, name: string, t: int): (r: seq<Environment>)
    ensures |r| == |envs|
    ensures FirstNamed(envs, name).None? ==> r == envs
    ensures FirstNamed(envs, name).Some? ==>
      var i := FirstNamed(envs, name).value;
      r[i] == envs[i].(lastDeployment := Some(t))
      && forall k :: 0 <= k < |envs| && k != i ==> r[k] == envs[k]
  {
    match FirstNamed(envs, name)
    case None => envs
    case Some(i) => envs[i := envs[i].(lastDeployment := Some(t))]
  }

  /** A later deployment to the same name overwrites the earlier time and touches nothing else. */
  lemma StampedTwice(envs: seq<Environment>, name: string, t1: int, t2: int)
    ensures Stamped(Stamped(envs, name, t1), name, t2) == Stamped(envs, name, t2)
  {
    var once := Stamped(envs, name, t1);
    assert forall k :: 0 <= k < |envs| ==> once[k].name == envs[k].name;
    FirstNamedSameNames(envs, once, name);
  }

  /** The first match depends on the names alone. */
  lemma {:induction false} FirstNamedSameNames(a: seq<Environment>, b: seq<Environment>, name: string)
    requires |a| == |b| && forall k :: 0 <= k < |a| ==> a[k].name == b[k].name
    ensures FirstNamed(a, name) == FirstNamed(b, name)
    decreases |a|
  {
    if a != [] && a[0].name != name {
      FirstNamedSameNames(a[1..], b[1..], name);
    }
  }

  /** The indices of the `deployed` deployments from `k` on, in order: what the rollback offers. */
  function OfferedFrom(ds: seq<Deployment>, k: nat): (r: seq<nat>)
    requires k <= |ds|
    ensures forall x :: x in r ==> k <= x < |ds| && ds[x].status == Deployed
    ensures forall x :: k <= x < |ds| && ds[x].status == Deployed ==> x in r
    ensures forall a, b :: 0 <= a < b < |r| ==> r[a] < r[b]
    decreases |ds| - k
  {
    if k == |ds| then []
    else
      var rest := OfferedFrom(ds, k + 1);
      assert forall b :: 0 <= b < |rest| ==> rest[b] in rest;
      if ds[k].status == Deployed then [k] + rest else rest
  }

  function Offered(ds: seq<Deployment>): seq<nat>
  {
    OfferedFrom(ds, 0)
  }

  /** How a rollback command ends. */
  datatype RollbackOutcome = NoDeployments | NoneDeployed | RollbackCancelled | RolledBackAt(index: nat)

  // ---------------------------------------------------------------------------
  // Environments

  /** The record `addEnvironment` appends: online, with the default resources. */
  function NewEnvironment(name: string, kind: EnvironmentType, url: string, now: nat): (e: Environment)
    ensures e.name == name && e.kind == kind && e.url == url
    ensures e.status == Online && e.lastDeployment.None? && e.resources == Resources(2, 4, 1)
  {
    Environment("env-" + NatToString(now), name, kind, url, Online, None, Resources(2, 4, 1))
  }

  /** `environments.filter(env => env.id !== id)`. */
  function WithoutId(envs: seq<Environment>, id: string): (r: seq<Environment>)
    ensures |r| <= |envs|
    ensures forall e :: e in r <==> e in envs && e.id != id
  {
    if envs == [] then []
    else
      var rest := WithoutId(envs[1..], id);
      assert forall e :: e in envs <==> e == envs[0] || e in envs[1..];
      if envs[0].id == id then rest else [envs[0]] + rest
  }

  /** The filter keeps the order: it works on each part of a list separately. */
  lemma {:induction false} WithoutIdConcat(a: seq<Environment>, b: seq<Environment>, id: string)
    ensures WithoutId(a + b, id) == WithoutId(a, id) + WithoutId(b, id)
    decreases |a|
  {
    if a == [] {
      assert a + b == b;
    } else {
      assert (a + b)[1..] == a[1..] + b;
      WithoutIdConcat(a[1..], b, id);
    }
  }

  /** A list without the id is kept as it is. */
  lemma {:induction false} WithoutIdAbsent(envs: seq<Environment>, id: string)
    requires forall e :: e in envs ==> e.id != id
    ensures WithoutId(envs, id) == envs
    decreases |envs|
  {
    if envs != [] {
      assert envs[0] in envs;
      assert forall e :: e in envs[1..] ==> e in envs;
      WithoutIdAbsent(envs[1..], id);
    }
  }

  /** Deleting twice is deleting once. */
  lemma WithoutIdIdempotent(envs: seq<Environment>, id: string)
    ensures WithoutId(WithoutId(envs, id), id) == WithoutId(envs, id)
  {
    WithoutIdAbsent(WithoutId(envs, id), id);
  }

  /** Removing an id that occurs shortens the list. */
  lemma {:induction false} WithoutIdShrinks(envs: seq<Environment>, i: nat)
    requires i < |envs|
    ensures |WithoutId(envs, envs[i].id)| < |envs|
    decreases |envs|
  {
    var id := envs[i].id;
    if i > 0 {
      WithoutIdShrinks(envs[1..], i - 1);
    } else {
      assert |WithoutId(envs[1..], id)| <= |envs[1..]|;
    }
  }

  /** How an edit, delete or restart command ends. */
  datatype EnvironmentOutcome = NoEnvironments | EnvironmentCancelled | EnvironmentChanged(index: nat)

  // ---------------------------------------------------------------------------
  // The extension's state

  /** The sample time stamps `2024-01-15T10:00:00Z`, `T14:30:00Z` and `T16:00:00Z`. */
  const DevelopmentDeployed := 1705312800000
  const StagingDeployed := 1705329000000
  const ProductionDeployed := 1705334400000

  function SamplePipelines(now: int): seq<Pipeline>
  {
    [
      Pipeline("pipeline-1", "Main Pipeline", Success, "main", "abc123", now - 3600000, Some(now - 3000000), [
        Stage("stage-1", "Build", Success, now - 3600000, Some(now - 3500000), [
          Job("job-1", "Compile", Success, now - 3600000, Some(now - 3550000), Some(30)),
          Job("job-2", "Test", Success, now - 3550000, Some(now - 3500000), Some(30))
        ]),
        Stage("stage-2", "Deploy", Success, now - 3500000, Some(now - 3000000), [
          Job("job-3", "Staging", Success, now - 3500000, Some(now - 3200000), Some(180)),
          Job("job-4", "Production", Success, now - 3200000, Some(now - 3000000), Some(120))
        ])
      ]),
      Pipeline("pipeline-2", "Feature Pipeline", Running, "feature-branch", "def456", now - 600000, None, [
        Stage("stage-3", "Build", Success, now - 600000, Some(now - 500000), [
          Job("job-5", "Compile", Success, now - 600000, Some(now - 550000), Some(30)),
          Job("job-6", "Test", Success, now - 550000, Some(now - 500000), Some(30))
        ]),
        Stage("stage-4", "Deploy", Running, now - 500000, None, [
          Job("job-7", "Staging", Running, now - 500000, None, Some(60))
        ])
      ])
    ]
  }

  function SampleDeployments(now: int): seq<Deployment>
  {
    [
      Deployment("deploy-1", "Web App", "Production", "v1.2.0", Deployed, Rolling,
                 now - 7200000, Some(now - 6900000), "John Doe", "abc123"),
      Deployment("deploy-2", "API Service", "Staging", "v2.1.0", Deploying, BlueGreen,
                 now - 300000, None, "Jane Smith", "def456")
    ]
  }

  function SampleEnvironments(): seq<Environment>
  {
    [
      Environment("env-1", "Development", Development, "http://dev.example.com", Online,
                  Some(DevelopmentDeployed), Resources(2, 4, 1)),
      Environment("env-2", "Staging", Staging, "http://staging.example.com", Online,
                  Some(StagingDeployed), Resources(4, 8, 2)),
      Environment("env-3", "Production", Production, "https://example.com", Online,
                  Some(ProductionDeployed), Resources(8, 16, 4))
    ]
  }

  class DevOpsTools {
    var pipelines: seq<Pipeline>
    var deployments: seq<Deployment>
    var environments: seq<Environment>

    /** The constructor installs the sample data, its time stamps relative to `now`. */
    constructor(now: int)
      ensures pipelines == SamplePipelines(now)
      ensures deployments == SampleDeployments(now)
      ensures environments == SampleEnvironments()
    {
      pipelines := SamplePipelines(now);
      deployments := SampleDeployments(now);
      environments := SampleEnvironments();
    }

    /**
     * `runPipeline`: a new run of the chosen pipeline goes in front and then
     * completes; `started` and `finished` are the clock at either phase.
     */
    method RunPipeline(choice: Option<nat>, branch: Option<string>, commit: string,
                       started: nat, finished: int, draws: seq<seq<nat>>) returns (run: bool)
      requires choice.Some? ==> choice.value < |pipelines|
      requires |draws| == 2 && |draws[0]| == 2 && |draws[1]| == 2
      requires forall i :: 0 <= i < 2 ==> forall d :: d in draws[i] ==> d < DrawBound
      modifies this
      ensures run <==> choice.Some? && Given(branch)
      ensures !run ==> pipelines == old(pipelines)
      ensures run ==>
        |pipelines| == |old(pipelines)| + 1 && pipelines[1..] == old(pipelines)
        && SameOutline(pipelines[0], NewPipeline(old(pipelines)[choice.value].name, branch.value, commit, started))
        && Finished(pipelines[0], finished)
        && forall i, j :: 0 <= i < |pipelines[0].stages| && 0 <= j < |pipelines[0].stages[i].jobs| ==>
             i < |draws| && j < |draws[i]| && pipelines[0].stages[i].jobs[j].duration == Some(draws[i][j] + MinDuration)
      ensures deployments == old(deployments) && environments == old(environments)
    {
      run := choice.Some? && Given(branch);
      if run {
        var created := NewPipeline(pipelines[choice.value].name, branch.value, commit, started);
        pipelines := [created] + pipelines;
        var done := CompletePipeline(created, finished, draws);
        pipelines := pipelines[0 := done];
      }
    }

    /**
     * `deployApplication`: a new deployment goes in front, deploying, and
     * then becomes deployed; the first environment with the chosen name
     * records the time.
     */
    method DeployApplication(application: Option<string>, environment: Option<string>,
                             version: Option<string>, strategy: Option<Strategy>, commit: string,
                             started: nat, finished: int) returns (deployed: bool)
      modifies this
      ensures deployed <==> Given(application) && Given(environment) && Given(version) && strategy.Some?
      ensures !deployed ==> deployments == old(deployments) && environments == old(environments)
      ensures deployed ==>
        deployments == [NewDeployment(application.value, environment.value, version.value, strategy.value,
                                      commit, started).(status := Deployed, completedAt := Some(finished))]
                       + old(deployments)
        && environments == Stamped(old(environments), environment.value, finished)
      ensures pipelines == old(pipelines)
    {
      deployed := Given(application) && Given(environment) && Given(version) && strategy.Some?;
      if deployed {
        var d := NewDeployment(application.value, environment.value, version.value, strategy.value, commit, started);
        deployments := [d] + deployments;
        deployments := deployments[0 := d.(status := Deployed, completedAt := Some(finished))];
        environments := Stamped(environments, environment.value, finished);
      }
    }

    /**
     * `rollbackDeployment`: only deployed records are offered; once
     * confirmed, the chosen one is rolled back at `finished`.
     */
    method RollbackDeployment(choice: Option<nat>, confirmed: bool, finished: int)
      returns (outcome: RollbackOutcome)
      requires choice.Some? ==> choice.value < |Offered(deployments)|
      modifies this
      ensures outcome == NoDeployments <==> old(deployments) == []
      ensures outcome == NoneDeployed <==> old(deployments) != [] && Offered(old(deployments)) == []
      ensures outcome.RolledBackAt? <==> Offered(old(deployments)) != [] && choice.Some? && confirmed
      ensures !outcome.RolledBackAt? ==> deployments == old(deployments)
      ensures outcome.RolledBackAt? ==>
        var i := outcome.index;
        i == Offered(old(deployments))[choice.value] && i < |old(deployments)|
        && old(deployments)[i].status == Deployed
        && deployments == old(deployments)[i := old(deployments)[i].(status := RolledBack, completedAt := Some(finished))]
      ensures pipelines == old(pipelines) && environments == old(environments)
    {
      if deployments == [] {
        return NoDeployments;
      }
      var offered := Offered(deployments);
      if offered == [] {
        return NoneDeployed;
      }
      if choice.None? || !confirmed {
        return RollbackCancelled;
      }
      var i := offered[choice.value];
      assert i in offered;
      deployments := deployments[i := deployments[i].(status := RolledBack, completedAt := Some(finished))];
      outcome := RolledBackAt(i);
    }

    /** `addEnvironment`: a new online environment goes at the end. */
    method AddEnvironment(name: Option<string>, kind: Option<EnvironmentType>, url: Option<string>, now: nat)
      returns (added: bool)
      modifies this
      ensures added <==> Given(name) && kind.Some? && Given(url)
      ensures !added ==> environments == old(environments)
      ensures added ==> environments == old(environments) + [NewEnvironment(name.value, kind.value, url.value, now)]
      ensures pipelines == old(pipelines) && deployments == old(deployments)
    {
      added := Given(name) && kind.Some? && Given(url);
      if added {
        environments := environments + [NewEnvironment(name.value, kind.value, url.value, now)];
      }
    }

    /** `editEnvironment`: the chosen environment gets the new name and url and nothing else. */
    method EditEnvironment(choice: Option<nat>, newName: Option<string>, newUrl: Option<string>)
      returns (outcome: EnvironmentOutcome)
      requires choice.Some? ==> choice.value < |environments|
      modifies this
      ensures outcome == NoEnvironments <==> old(environments) == []
      ensures outcome.EnvironmentChanged? <==> choice.Some? && Given(newName) && Given(newUrl)
      ensures !outcome.EnvironmentChanged? ==> environments == old(environments)
      ensures outcome.EnvironmentChanged? ==>
        var i := outcome.index;
        i == choice.value && |environments| == |old(environments)|
        && environments[i] == old(environments)[i].(name := newName.value, url := newUrl.value)
        && forall k :: 0 <= k < |environments| && k != i ==> environments[k] == old(environments)[k]
      ensures pipelines == old(pipelines) && deployments == old(deployments)
    {
      if environments == [] {
        return NoEnvironments;
      }
      if choice.None? || !Given(newName) || !Given(newUrl) {
        return EnvironmentCancelled;
      }
      var i := choice.value;
      environments := environments[i := environments[i].(name := newName.value, url := newUrl.value)];
      outcome := EnvironmentChanged(i);
    }

    /** `deleteEnvironment`: once confirmed, every environment with the chosen one's id goes. */
    method DeleteEnvironment(choice: Option<nat>, confirmed: bool) returns (outcome: EnvironmentOutcome)
      requires choice.Some? ==> choice.value < |environments|
      modifies this
      ensures outcome == NoEnvironments <==> old(environments) == []
      ensures outcome.EnvironmentChanged? <==> choice.Some? && confirmed
      ensures !outcome.EnvironmentChanged? ==> environments == old(environments)
      ensures outcome.EnvironmentChanged? ==>
        outcome.index == choice.value
        && environments == WithoutId(old(environments), old(environments)[choice.value].id)
        && |environments| < |old(environments)|
      ensures pipelines == old(pipelines) && deployments == old(deployments)
    {
      if environments == [] {
        return NoEnvironments;
      }
      if choice.None? || !confirmed {
        return EnvironmentCancelled;
      }
      WithoutIdShrinks(environments, choice.value);
      environments := WithoutId(environments, environments[choice.value].id);
      outcome := EnvironmentChanged(choice.value);
    }

    /**
     * `restartEnvironment`: the chosen environment goes to maintenance and
     * then back online, whatever its status was; `midway` is the list
     * between the two steps.
     */
    method RestartEnvironment(choice: Option<nat>) returns (outcome: EnvironmentOutcome, ghost midway: seq<Environment>)
      requires choice.Some? ==> choice.value < |environments|
      modifies this
      ensures outcome == NoEnvironments <==> old(environments) == []
      ensures outcome.EnvironmentChanged? <==> choice.Some?
      ensures !outcome.EnvironmentChanged? ==> environments == old(environments)
      ensures outcome.EnvironmentChanged? ==>
        var i := outcome.index;
        i == choice.value
        && midway == old(environments)[i := old(environments)[i].(status := Maintenance)]
        && environments == old(environments)[i := old(environments)[i].(status := Online)]
      ensures pipelines == old(pipelines) && deployments == old(deployments)
    {
      midway := environments;
      if environments == [] {
        return NoEnvironments, midway;
      }
      if choice.None? {
        return EnvironmentCancelled, midway;
      }
      var i := choice.value;
      environments := environments[i := environments[i].(status := Maintenance)];
      midway := environments;
      environments := environments[i := environments[i].(status := Online)];
      outcome := EnvironmentChanged(i);
    }
  }
}
