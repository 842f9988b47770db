/**
 The coverage check of scripts/verify-exercised-tests.js from end to end: the steps of every job are flattened, the
 scripts that collect coverage are found, and the upload check runs on both.
 */
module CoverageCheck {
  import E = StepEvents
  import U = CoverageUploads
  import S = ScriptGraph

  /** A job as the workflow file has it: its steps, the environment around them and the combinations of its matrix. */
  datatype WorkflowJob = WorkflowJob(key: string, steps: seq<E.Step>, env: E.Env, combos: seq<U.Matrix>)

  /** Replacing the matrix expressions of a command and of an environment. */
  datatype Substitution =
    Substitution(command: (string, U.Matrix) -> string, env: (E.Env, U.Matrix) -> E.Env)

  // ---------- the property ----------

  /** The command runs a collector, or calls a script from which one that does is reachable. */
  ghost predicate ProducesCoverage(g: S.Graph, command: string) {
    g.collects(command) || exists k :: 0 <= k < |g.calls(command)| && S.Covers(g, g.calls(command)[k])
  }

  /** Everything the job does, in order: its unfolding without the uses that re-enter an action. */
  ghost function Timeline(w: E.World, job: WorkflowJob): seq<E.StepEvent> {
    E.Select(E.UnfoldSteps(w, job.steps, job.env, |w.composites|, []), {})
  }

  ghost function Uploads(w: E.World, job: WorkflowJob): set<nat> {
    set u: nat | u < |Timeline(w, job)| && Timeline(w, job)[u].Upload?
  }

  /** The positions at which the job produces coverage, in some combination of its matrix. */
  ghost function Productions(w: E.World, g: S.Graph, x: Substitution, job: WorkflowJob): set<nat> {
    set k: nat | k < |Timeline(w, job)| && ProducesAt(w, g, x, job, k)
  }

  ghost predicate ProducesAt(w: E.World, g: S.Graph, x: Substitution, job: WorkflowJob, k: nat) {
    k < |Timeline(w, job)| && Timeline(w, job)[k].Ran?
    && exists c :: 0 <= c < |job.combos| && ProducesCoverage(g, x.command(Timeline(w, job)[k].run, job.combos[c]))
  }

  /** Some coverage of the job is produced with no upload after it. */
  ghost predicate Loses(w: E.World, g: S.Graph, x: Substitution, job: WorkflowJob) {
    exists k :: k in Productions(w, g, x, job) && forall u :: u in Uploads(w, job) ==> u <= k
  }

  /** The errors name the job exactly when it loses coverage, and say whether it uploads at all. */
  ghost predicate Reported(w: E.World, g: S.Graph, x: Substitution, job: WorkflowJob, errors: set<U.Problem>) {
    (U.NeverUploaded(job.key) in errors <==> Loses(w, g, x, job) && Uploads(w, job) == {})
    && (U.UploadedTooEarly(job.key) in errors <==> Loses(w, g, x, job) && Uploads(w, job) != {})
    && forall action :: U.CannotInspect(job.key, action) in errors <==> E.Opaque(action) in Timeline(w, job)
  }

  // ---------- the program ----------

  /** `commandProducesCoverage`. */
  predicate CallsCoverage(g: S.Graph, coverageScripts: set<string>, command: string) {
    g.collects(command)
    || exists k :: 0 <= k < |g.calls(command)| && g.calls(command)[k] in coverageScripts
  }

  /** The events of every job, each collected with nothing being expanded. */
  method CollectJobs(w: E.World, jobs: seq<WorkflowJob>) returns (out: seq<U.Job>)
    ensures |out| == |jobs|
    ensures forall j :: 0 <= j < |jobs| ==> out[j] == U.Job(jobs[j].key, Timeline(w, jobs[j]), jobs[j].combos)
  {
    out := [];
    for n := 0 to |jobs|
      invariant |out| == n
      invariant forall j :: 0 <= j < n ==> out[j] == U.Job(jobs[j].key, Timeline(w, jobs[j]), jobs[j].combos)
    {
      var collector := new E.StepCollector(w);
      var events := collector.CollectNested(jobs[n].steps, jobs[n].env);
      E.JobEvents(w, jobs[n].steps, jobs[n].env, |w.composites|);
      out := out + [U.Job(jobs[n].key, events, jobs[n].combos)];
    }
  }

  method CheckCoverage(w: E.World, g: S.Graph, order: seq<string>, x: Substitution, jobs: seq<WorkflowJob>)
    returns (errors: set<U.Problem>)
    requires S.Lists(g, order) && forall i, j :: 0 <= i < j < |jobs| ==> jobs[i].key != jobs[j].key
    ensures forall j :: 0 <= j < |jobs| ==> Reported(w, g, x, jobs[j], errors)
    ensures forall p :: p in errors ==> exists j :: 0 <= j < |jobs| && jobs[j].key == p.job
  {
    var collected := CollectJobs(w, jobs);
    var coverageScripts, rounds := S.FindCoverageScripts(g, order);
    var expressions := U.Expressions(x.command, x.env, command => CallsCoverage(g, coverageScripts, command));
    errors := U.CheckUploads(expressions, collected);
    forall j | 0 <= j < |jobs|
      ensures Reported(w, g, x, jobs[j], errors)
    {
      assert U.Judged(expressions, collected[j], errors);
      JudgedIsReported(w, g, x, coverageScripts, expressions, jobs[j], collected[j], errors);
    }
    forall p | p in errors
      ensures exists j :: 0 <= j < |jobs| && jobs[j].key == p.job
    {
      var j :| 0 <= j < |collected| && collected[j].key == p.job;
      assert jobs[j].key == p.job;
    }
  }

  // ---------- from the parts to the whole ----------

  lemma CallsProduce(g: S.Graph, coverageScripts: set<string>, command: string)
    requires forall n :: n in coverageScripts <==> S.Covers(g, n)
    ensures CallsCoverage(g, coverageScripts, command) <==> ProducesCoverage(g, command)
  {
  }

  /** The test of the upload check is the property. */
  ghost predicate Matches(g: S.Graph, x: Substitution, e: U.Expressions) {
    e.command == x.command && forall command :: e.produces(command) <==> ProducesCoverage(g, command)
  }

  lemma ProducesMatches(w: E.World, g: S.Graph, x: Substitution, e: U.Expressions, job: WorkflowJob, k: nat)
    requires Matches(g, x, e)
    ensures U.Produces(e, U.Job(job.key, Timeline(w, job), job.combos), k) <==> ProducesAt(w, g, x, job, k)
  {
    if k < |Timeline(w, job)| && Timeline(w, job)[k].Ran? {
      forall c | 0 <= c < |job.combos|
        ensures e.produces(e.command(Timeline(w, job)[k].run, job.combos[c]))
                <==> ProducesCoverage(g, x.command(Timeline(w, job)[k].run, job.combos[c]))
      {
      }
    }
  }

  lemma LosesMatches(w: E.World, g: S.Graph, x: Substitution, e: U.Expressions, job: WorkflowJob)
    requires Matches(g, x, e)
    ensures U.LosesCoverage(e, U.Job(job.key, Timeline(w, job), job.combos)) <==> Loses(w, g, x, job)
  {
    var flat := U.Job(job.key, Timeline(w, job), job.combos);
    forall k: nat
      ensures U.Produces(e, flat, k) <==> k in Productions(w, g, x, job)
      ensures U.UploadsAfter(flat, k) <==> exists u :: u in Uploads(w, job) && u > k
    {
      ProducesMatches(w, g, x, e, job, k);
      if U.UploadsAfter(flat, k) {
        var u :| k < u < |flat.events| && flat.events[u].Upload?;
        assert u in Uploads(w, job);
      }
    }
    if U.LosesCoverage(e, flat) {
      var k: nat :| k < |flat.events| && U.Produces(e, flat, k) && !U.UploadsAfter(flat, k);
      assert k in Productions(w, g, x, job);
    }
    if Loses(w, g, x, job) {
      var k: nat :| k in Productions(w, g, x, job) && forall u :: u in Uploads(w, job) ==> u <= k;
      assert U.Produces(e, flat, k) && !U.UploadsAfter(flat, k);
    }
  }

  lemma UploadsMatch(w: E.World, job: WorkflowJob)
    ensures U.Uploads(U.Job(job.key, Timeline(w, job), job.combos)) <==> Uploads(w, job) != {}
  {
    if U.Uploads(U.Job(job.key, Timeline(w, job), job.combos)) {
      var u: nat :| u < |Timeline(w, job)| && Timeline(w, job)[u].Upload?;
      assert u in Uploads(w, job);
    }
  }

  lemma JudgedIsReported(w: E.World, g: S.Graph, x: Substitution, coverageScripts: set<string>, e: U.Expressions,
                         job: WorkflowJob, flat: U.Job, errors: set<U.Problem>)
    requires forall n :: n in coverageScripts <==> S.Covers(g, n)
    requires e.command == x.command
    requires forall command :: e.produces(command) <==> CallsCoverage(g, coverageScripts, command)
    requires flat == U.Job(job.key, Timeline(w, job), job.combos) && U.Judged(e, flat, errors)
    requires forall action :: U.CannotInspect(flat.key, action) in errors <==> E.Opaque(action) in flat.events
    ensures Reported(w, g, x, job, errors)
  {
    forall command
      ensures e.produces(command) <==> ProducesCoverage(g, command)
    {
      CallsProduce(g, coverageScripts, command);
    }
    LosesMatches(w, g, x, e, job);
    UploadsMatch(w, job);
  }
}
