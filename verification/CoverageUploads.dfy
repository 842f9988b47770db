/**
 The upload check of scripts/verify-exercised-tests.js: `collectWorkflowRuns` numbers the events of every job, and
 the check compares each coverage-producing run with the last upload of its job.
 */
module CoverageUploads {
  import opened Wrappers
  import opened StepEvents

  type Matrix = map<string, string>

  /** A job of a workflow, its flattened events and the combinations of its matrix. */
  datatype Job = Job(key: string, events: seq<StepEvent>, combos: seq<Matrix>)

  datatype WorkflowRun = WorkflowRun(job: string, run: string, env: Env, sequence: nat)

  /** Replacing the matrix expressions of a command and of an environment, and the test for coverage. */
  datatype Expressions = Expressions(command: (string, Matrix) -> string, env: (Env, Matrix) -> Env,
                                     produces: string -> bool)

  datatype Problem =
    NeverUploaded(job: string) | UploadedTooEarly(job: string) | CannotInspect(job: string, action: string)

  predicate DistinctKeys(jobs: seq<Job>) {
    forall i, j :: 0 <= i < j < |jobs| ==> jobs[i].key != jobs[j].key
  }

  // ---------- the property ----------

  /** Event `k` of the job runs a command that produces coverage, in some combination of the matrix. */
  predicate Produces(x: Expressions, job: Job, k: nat) {
    k < |job.events| && job.events[k].Ran?
    && exists c :: 0 <= c < |job.combos| && x.produces(x.command(job.events[k].run, job.combos[c]))
  }

  predicate UploadsAfter(job: Job, k: nat) {
    exists u :: k < u < |job.events| && job.events[u].Upload?
  }

  /** Some coverage of the job is never uploaded. */
  predicate LosesCoverage(x: Expressions, job: Job) {
    exists k :: 0 <= k < |job.events| && Produces(x, job, k) && !UploadsAfter(job, k)
  }

  predicate Uploads(job: Job) {
    exists u :: 0 <= u < |job.events| && job.events[u].Upload?
  }

  /** The errors name the job exactly when it loses coverage, and say whether it uploads at all. */
  predicate Judged(x: Expressions, job: Job, errors: set<Problem>) {
    (NeverUploaded(job.key) in errors <==> LosesCoverage(x, job) && !Uploads(job))
    && (UploadedTooEarly(job.key) in errors <==> LosesCoverage(x, job) && Uploads(job))
  }

  // ---------- collecting ----------

  function LastUpload(events: seq<StepEvent>): Option<nat> {
    if events == [] then None
    else if events[|events| - 1].Upload? then Some(|events| - 1)
    else LastUpload(events[..|events| - 1])
  }

  /** The runs of one event: one for each combination that gives a new command or environment. */
  function Legs(x: Expressions, job: Job, k: nat, n: nat): seq<WorkflowRun>
    requires k < |job.events| && job.events[k].Ran? && n <= |job.combos|
  {
    if n == 0 then []
    else
      var legs := Legs(x, job, k, n - 1);
      var leg := Leg(x, job, k, n - 1);
      if leg in legs then legs else legs + [leg]
  }

  function Leg(x: Expressions, job: Job, k: nat, c: nat): WorkflowRun
    requires k < |job.events| && job.events[k].Ran? && c < |job.combos|
  {
    WorkflowRun(job.key, x.command(job.events[k].run, job.combos[c]), x.env(job.events[k].env, job.combos[c]), k)
  }

  function JobRuns(x: Expressions, job: Job, n: nat): seq<WorkflowRun>
    requires n <= |job.events|
  {
    if n == 0 then []
    else JobRuns(x, job, n - 1) + if job.events[n - 1].Ran? then Legs(x, job, n - 1, |job.combos|) else []
  }

  function AllRuns(x: Expressions, jobs: seq<Job>): seq<WorkflowRun> {
    if jobs == [] then []
    else AllRuns(x, jobs[..|jobs| - 1]) + JobRuns(x, jobs[|jobs| - 1], |jobs[|jobs| - 1].events|)
  }

  lemma {:induction false} LegsMembers(x: Expressions, job: Job, k: nat, n: nat, r: WorkflowRun)
    requires k < |job.events| && job.events[k].Ran? && n <= |job.combos|
    ensures r in Legs(x, job, k, n) <==> exists c :: 0 <= c < n && r == Leg(x, job, k, c)
  {
    if n > 0 {
      LegsMembers(x, job, k, n - 1, r);
    }
  }

  lemma {:induction false} JobRunsMembers(x: Expressions, job: Job, n: nat, r: WorkflowRun)
    requires n <= |job.events|
    ensures r in JobRuns(x, job, n) <==> r.sequence < n && IsRun(x, job, r)
  {
    if n > 0 {
      JobRunsMembers(x, job, n - 1, r);
      if job.events[n - 1].Ran? {
        LegsAreRuns(x, job, n - 1, r);
      }
    }
  }

  /** `r` is its event of the job in combination `c` of the matrix. */
  predicate Gives(x: Expressions, job: Job, c: nat, r: WorkflowRun) {
    c < |job.combos| && r.sequence < |job.events| && job.events[r.sequence].Ran? && r.job == job.key
    && r.run == x.command(job.events[r.sequence].run, job.combos[c])
    && r.env == x.env(job.events[r.sequence].env, job.combos[c])
  }

  predicate IsRun(x: Expressions, job: Job, r: WorkflowRun) {
    exists c :: 0 <= c < |job.combos| && Gives(x, job, c, r)
  }

  lemma LegsAreRuns(x: Expressions, job: Job, k: nat, r: WorkflowRun)
    requires k < |job.events| && job.events[k].Ran?
    ensures r in Legs(x, job, k, |job.combos|) <==> r.sequence == k && IsRun(x, job, r)
  {
    LegsMembers(x, job, k, |job.combos|, r);
    assert forall c :: 0 <= c < |job.combos| ==> (r == Leg(x, job, k, c) <==> r.sequence == k && Gives(x, job, c, r));
  }

  // ---------- the order of the runs ----------

  /** `r` is of an earlier event, or of the same event in a combination before all those that give `q`. */
  predicate Precedes(x: Expressions, job: Job, r: WorkflowRun, q: WorkflowRun) {
    r.sequence < q.sequence
    || (r.sequence == q.sequence
        && exists c :: 0 <= c < |job.combos| && Gives(x, job, c, r)
                       && forall d :: 0 <= d <= c ==> !Gives(x, job, d, q))
  }

  predicate InOrder(x: Expressions, job: Job, runs: seq<WorkflowRun>) {
    forall i, j :: 0 <= i < j < |runs| ==> Precedes(x, job, runs[i], runs[j])
  }

  /** The list holds each run of the job once, in the order of the events and then of the combinations. */
  ghost predicate ListsRuns(x: Expressions, job: Job, runs: seq<WorkflowRun>) {
    (forall r :: r in runs <==> IsRun(x, job, r)) && InOrder(x, job, runs)
  }

  function Concat(parts: seq<seq<WorkflowRun>>): seq<WorkflowRun> {
    if parts == [] then [] else Concat(parts[..|parts| - 1]) + parts[|parts| - 1]
  }

  predicate PerJob(jobs: seq<Job>, parts: seq<seq<WorkflowRun>>, runs: seq<WorkflowRun>) {
    |parts| == |jobs| && runs == Concat(parts)
  }

  /** The runs of all jobs, job after job. */
  ghost predicate ListsAll(x: Expressions, jobs: seq<Job>, runs: seq<WorkflowRun>) {
    exists parts :: PerJob(jobs, parts, runs) && forall j :: 0 <= j < |jobs| ==> ListsRuns(x, jobs[j], parts[j])
  }

  lemma NewLegFollows(x: Expressions, job: Job, k: nat, n: nat, r: WorkflowRun)
    requires k < |job.events| && job.events[k].Ran? && n < |job.combos|
    requires r in Legs(x, job, k, n) && Leg(x, job, k, n) !in Legs(x, job, k, n)
    ensures Precedes(x, job, r, Leg(x, job, k, n))
  {
    LegsMembers(x, job, k, n, r);
    var c :| 0 <= c < n && r == Leg(x, job, k, c);
    assert Gives(x, job, c, r);
    forall d | 0 <= d <= c
      ensures !Gives(x, job, d, Leg(x, job, k, n))
    {
      LegsMembers(x, job, k, n, Leg(x, job, k, d));
    }
  }

  lemma {:induction false} LegsInOrder(x: Expressions, job: Job, k: nat, n: nat)
    requires k < |job.events| && job.events[k].Ran? && n <= |job.combos|
    ensures InOrder(x, job, Legs(x, job, k, n))
  {
    if n > 0 {
      var legs, leg := Legs(x, job, k, n - 1), Leg(x, job, k, n - 1);
      LegsInOrder(x, job, k, n - 1);
      if leg !in legs {
        forall i | 0 <= i < |legs|
          ensures Precedes(x, job, legs[i], leg)
        {
          NewLegFollows(x, job, k, n - 1, legs[i]);
        }
      }
    }
  }

  lemma OrderConcat(x: Expressions, job: Job, a: seq<WorkflowRun>, b: seq<WorkflowRun>, n: nat)
    requires InOrder(x, job, a) && InOrder(x, job, b)
    requires (forall r :: r in a ==> r.sequence < n) && forall r :: r in b ==> r.sequence == n
    ensures InOrder(x, job, a + b)
  {
  }

  lemma {:induction false} JobRunsInOrder(x: Expressions, job: Job, n: nat)
    requires n <= |job.events|
    ensures InOrder(x, job, JobRuns(x, job, n))
  {
    if n > 0 {
      JobRunsInOrder(x, job, n - 1);
      if job.events[n - 1].Ran? {
        LegsInOrder(x, job, n - 1, |job.combos|);
        forall r
          ensures r in JobRuns(x, job, n - 1) ==> r.sequence < n - 1
          ensures r in Legs(x, job, n - 1, |job.combos|) ==> r.sequence == n - 1
        {
          JobRunsMembers(x, job, n - 1, r);
          LegsAreRuns(x, job, n - 1, r);
        }
        OrderConcat(x, job, JobRuns(x, job, n - 1), Legs(x, job, n - 1, |job.combos|), n - 1);
      }
    }
  }

  lemma JobRunsListed(x: Expressions, job: Job)
    ensures ListsRuns(x, job, JobRuns(x, job, |job.events|))
  {
    JobRunsInOrder(x, job, |job.events|);
    forall r
      ensures r in JobRuns(x, job, |job.events|) <==> IsRun(x, job, r)
    {
      JobRunsMembers(x, job, |job.events|, r);
    }
  }

  lemma ListsMore(x: Expressions, jobs: seq<Job>, runs: seq<WorkflowRun>, job: Job, more: seq<WorkflowRun>)
    requires ListsAll(x, jobs, runs) && ListsRuns(x, job, more)
    ensures ListsAll(x, jobs + [job], runs + more)
  {
    var parts :| PerJob(jobs, parts, runs) && forall j :: 0 <= j < |jobs| ==> ListsRuns(x, jobs[j], parts[j]);
    assert PerJob(jobs + [job], parts + [more], runs + more) by {
      assert (parts + [more])[..|parts|] == parts;
    }
    forall j | 0 <= j < |jobs + [job]|
      ensures ListsRuns(x, (jobs + [job])[j], (parts + [more])[j])
    {
      assert j < |jobs| ==> ListsRuns(x, jobs[j], parts[j]);
    }
  }

  lemma {:induction false} AllRunsListed(x: Expressions, jobs: seq<Job>)
    ensures ListsAll(x, jobs, AllRuns(x, jobs))
  {
    if jobs == [] {
      assert PerJob(jobs, [], AllRuns(x, jobs));
    } else {
      var init, last := jobs[..|jobs| - 1], jobs[|jobs| - 1];
      AllRunsListed(x, init);
      JobRunsListed(x, last);
      ListsMore(x, init, AllRuns(x, init), last, JobRuns(x, last, |last.events|));
      assert init + [last] == jobs;
    }
  }

  lemma {:induction false} AllRunsMembers(x: Expressions, jobs: seq<Job>, r: WorkflowRun)
    ensures r in AllRuns(x, jobs) <==> exists j :: 0 <= j < |jobs| && r in JobRuns(x, jobs[j], |jobs[j].events|)
  {
    if jobs != [] {
      AllRunsMembers(x, jobs[..|jobs| - 1], r);
    }
  }

  lemma {:induction false} LastUploadIsLast(events: seq<StepEvent>)
    ensures LastUpload(events).None? <==> forall k :: 0 <= k < |events| ==> !events[k].Upload?
    ensures LastUpload(events).Some? ==>
              var u := LastUpload(events).value;
              u < |events| && events[u].Upload? && forall k :: u < k < |events| ==> !events[k].Upload?
  {
    if events != [] && !events[|events| - 1].Upload? {
      LastUploadIsLast(events[..|events| - 1]);
    }
  }

  datatype Collected = Collected(runs: seq<WorkflowRun>, uploads: map<string, nat>, opaques: map<string, set<string>>)

  function OpaqueActions(events: seq<StepEvent>): set<string> {
    set e | e in events && e.Opaque? :: e.action
  }

  lemma OpaqueMember(events: seq<StepEvent>, action: string)
    ensures action in OpaqueActions(events) <==> Opaque(action) in events
  {
    if action in OpaqueActions(events) {
      var e :| e in events && e.Opaque? && e.action == action;
      assert e == Opaque(action);
    }
  }

  predicate KnownJob(jobs: seq<Job>, n: nat, key: string)
    requires n <= |jobs|
  {
    exists j :: 0 <= j < n && jobs[j].key == key
  }

  /** The last upload of each job that has one. */
  predicate UploadTable(jobs: seq<Job>, n: nat, uploads: map<string, nat>)
    requires n <= |jobs|
  {
    (forall key :: key in uploads ==> KnownJob(jobs, n, key))
    && forall j :: 0 <= j < n ==>
         var last := LastUpload(jobs[j].events);
         if last.None? then jobs[j].key !in uploads else jobs[j].key in uploads && uploads[jobs[j].key] == last.value
  }

  /** The actions each job uses that could not be inspected. */
  predicate OpaqueTable(jobs: seq<Job>, n: nat, opaques: map<string, set<string>>)
    requires n <= |jobs|
  {
    (forall key :: key in opaques ==> KnownJob(jobs, n, key))
    && forall j :: 0 <= j < n ==>
         var actions := OpaqueActions(jobs[j].events);
         if actions == {} then jobs[j].key !in opaques else jobs[j].key in opaques && opaques[jobs[j].key] == actions
  }

  predicate Tables(jobs: seq<Job>, n: nat, c: Collected)
    requires n <= |jobs|
  {
    UploadTable(jobs, n, c.uploads) && OpaqueTable(jobs, n, c.opaques)
  }

  method CollectLegs(x: Expressions, job: Job, sequence: nat) returns (out: seq<WorkflowRun>)
    requires sequence < |job.events| && job.events[sequence].Ran?
    ensures out == Legs(x, job, sequence, |job.combos|)
  {
    var event := job.events[sequence];
    var seen: set<(string, Env)> := {};
    out := [];
    for c := 0 to |job.combos|
      invariant out == Legs(x, job, sequence, c)
      invariant forall r :: r in out ==> r.job == job.key && r.sequence == sequence && (r.run, r.env) in seen
      invariant forall p :: p in seen ==> WorkflowRun(job.key, p.0, p.1, sequence) in out
    {
      var run := x.command(event.run, job.combos[c]);
      var env := x.env(event.env, job.combos[c]);
      if (run, env) in seen {
        continue;
      }
      seen := seen + {(run, env)};
      out := out + [WorkflowRun(job.key, run, env, sequence)];
    }
  }

  lemma OneMoreEvent(events: seq<StepEvent>, k: nat)
    requires k < |events|
    ensures LastUpload(events[..k + 1]) == if events[k].Upload? then Some(k) else LastUpload(events[..k])
    ensures OpaqueActions(events[..k + 1])
            == OpaqueActions(events[..k]) + if events[k].Opaque? then {events[k].action} else {}
  {
    assert events[..k + 1] == events[..k] + [events[k]];
    assert events[..k + 1][..k] == events[..k];
    assert forall e :: e in events[..k + 1] <==> e in events[..k] || e == events[k];
  }

  method CollectJob(x: Expressions, job: Job)
    returns (runs: seq<WorkflowRun>, upload: Option<nat>, opaques: set<string>)
    ensures runs == JobRuns(x, job, |job.events|)
    ensures upload == LastUpload(job.events) && opaques == OpaqueActions(job.events)
  {
    runs, upload, opaques := [], None, {};
    for sequence := 0 to |job.events|
      invariant runs == JobRuns(x, job, sequence)
      invariant upload == LastUpload(job.events[..sequence]) && opaques == OpaqueActions(job.events[..sequence])
    {
      var event := job.events[sequence];
      OneMoreEvent(job.events, sequence);
      if event.Upload? {
        upload := Some(sequence);
      } else if event.Opaque? {
        opaques := opaques + {event.action};
      } else {
        var legs := CollectLegs(x, job, sequence);
        runs := runs + legs;
      }
    }
    assert job.events[..|job.events|] == job.events;
  }

  method CollectWorkflowRuns(x: Expressions, jobs: seq<Job>) returns (c: Collected)
    requires DistinctKeys(jobs)
    ensures c.runs == AllRuns(x, jobs) && Tables(jobs, |jobs|, c)
  {
    c := Collected([], map[], map[]);
    for n := 0 to |jobs|
      invariant c.runs == AllRuns(x, jobs[..n]) && Tables(jobs, n, c)
    {
      var job := jobs[n];
      var runs, upload, opaques := CollectJob(x, job);
      assert jobs[..n + 1][..n] == jobs[..n];
      var uploads := if upload.Some? then c.uploads[job.key := upload.value] else c.uploads;
      var actions := if opaques != {} then c.opaques[job.key := opaques] else c.opaques;
      var d := Collected(c.runs + runs, uploads, actions);
      UploadTableGrows(jobs, n, c.uploads);
      OpaqueTableGrows(jobs, n, c.opaques);
      c := d;
    }
    assert jobs[..|jobs|] == jobs;
  }

  lemma KnownJobGrows(jobs: seq<Job>, n: nat, key: string)
    requires n < |jobs| && (KnownJob(jobs, n, key) || key == jobs[n].key)
    ensures KnownJob(jobs, n + 1, key)
  {
  }

  lemma UploadTableGrows(jobs: seq<Job>, n: nat, uploads: map<string, nat>)
    requires n < |jobs| && DistinctKeys(jobs) && UploadTable(jobs, n, uploads)
    ensures var last := LastUpload(jobs[n].events);
            UploadTable(jobs, n + 1, if last.Some? then uploads[jobs[n].key := last.value] else uploads)
  {
    forall key | key in uploads || key == jobs[n].key
      ensures KnownJob(jobs, n + 1, key)
    {
      KnownJobGrows(jobs, n, key);
    }
  }

  lemma OpaqueTableGrows(jobs: seq<Job>, n: nat, opaques: map<string, set<string>>)
    requires n < |jobs| && DistinctKeys(jobs) && OpaqueTable(jobs, n, opaques)
    ensures var actions := OpaqueActions(jobs[n].events);
            OpaqueTable(jobs, n + 1, if actions != {} then opaques[jobs[n].key := actions] else opaques)
  {
    forall key | key in opaques || key == jobs[n].key
      ensures KnownJob(jobs, n + 1, key)
    {
      KnownJobGrows(jobs, n, key);
    }
  }

  // ---------- the check ----------

  /** What one run adds to the errors. */
  function Blame(x: Expressions, uploads: map<string, nat>, r: WorkflowRun): set<Problem> {
    if !x.produces(r.run) then {}
    else if r.job !in uploads then {NeverUploaded(r.job)}
    else if r.sequence > uploads[r.job] then {UploadedTooEarly(r.job)}
    else {}
  }

  method CheckUploads(x: Expressions, jobs: seq<Job>) returns (errors: set<Problem>)
    requires DistinctKeys(jobs)
    ensures forall j :: 0 <= j < |jobs| ==> Judged(x, jobs[j], errors)
    ensures forall p :: p in errors ==> KnownJob(jobs, |jobs|, p.job)
    ensures forall j, action :: 0 <= j < |jobs| ==>
              (CannotInspect(jobs[j].key, action) in errors <==> Opaque(action) in jobs[j].events)
  {
    var c := CollectWorkflowRuns(x, jobs);
    errors := {};
    for n := 0 to |c.runs|
      invariant forall p :: p in errors <==> exists m :: 0 <= m < n && p in Blame(x, c.uploads, c.runs[m])
    {
      var run := c.runs[n];
      if !x.produces(run.run) {
        continue;
      }
      if run.job !in c.uploads {
        errors := errors + {NeverUploaded(run.job)};
      } else if run.sequence > c.uploads[run.job] {
        errors := errors + {UploadedTooEarly(run.job)};
      }
    }
    BlameIsLoss(x, jobs, c, errors);
    forall j, action | 0 <= j < |jobs|
      ensures jobs[j].key in c.opaques && action in c.opaques[jobs[j].key] <==> Opaque(action) in jobs[j].events
    {
      OpaqueMember(jobs[j].events, action);
    }
    errors := errors + set key, action | key in c.opaques && action in c.opaques[key] :: CannotInspect(key, action);
  }

  lemma BlameIsLoss(x: Expressions, jobs: seq<Job>, c: Collected, errors: set<Problem>)
    requires DistinctKeys(jobs) && c.runs == AllRuns(x, jobs) && Tables(jobs, |jobs|, c)
    requires forall p :: p in errors <==> exists m :: 0 <= m < |c.runs| && p in Blame(x, c.uploads, c.runs[m])
    ensures forall j :: 0 <= j < |jobs| ==> Judged(x, jobs[j], errors)
    ensures forall p :: p in errors ==> KnownJob(jobs, |jobs|, p.job)
    ensures forall p :: p in errors ==> !p.CannotInspect?
  {
    forall p | p in errors
      ensures KnownJob(jobs, |jobs|, p.job)
    {
      var m :| 0 <= m < |c.runs| && p in Blame(x, c.uploads, c.runs[m]);
      RunIsKnown(x, jobs, c.runs[m]);
    }
    forall j | 0 <= j < |jobs|
      ensures Judged(x, jobs[j], errors)
    {
      JobIsJudged(x, jobs, c, errors, j);
    }
  }

  lemma JobIsJudged(x: Expressions, jobs: seq<Job>, c: Collected, errors: set<Problem>, j: nat)
    requires DistinctKeys(jobs) && c.runs == AllRuns(x, jobs) && Tables(jobs, |jobs|, c) && j < |jobs|
    requires forall p :: p in errors <==> exists m :: 0 <= m < |c.runs| && p in Blame(x, c.uploads, c.runs[m])
    ensures Judged(x, jobs[j], errors)
  {
    assert Uploads(jobs[j]) <==> jobs[j].key in c.uploads by {
      LastUploadIsLast(jobs[j].events);
    }
    if LosesCoverage(x, jobs[j]) {
      LossIsBlamed(x, jobs, c, j);
    }
    forall m | 0 <= m < |c.runs| && c.runs[m].job == jobs[j].key && Blame(x, c.uploads, c.runs[m]) != {}
      ensures LosesCoverage(x, jobs[j])
    {
      BlamedIsLoss(x, jobs, c, j, c.runs[m]);
    }
  }

  /** Every run names a job of the list. */
  lemma RunIsKnown(x: Expressions, jobs: seq<Job>, r: WorkflowRun)
    requires r in AllRuns(x, jobs)
    ensures KnownJob(jobs, |jobs|, r.job)
  {
    AllRunsMembers(x, jobs, r);
    var j :| 0 <= j < |jobs| && r in JobRuns(x, jobs[j], |jobs[j].events|);
    JobRunsMembers(x, jobs[j], |jobs[j].events|, r);
  }

  lemma LegIsCollected(x: Expressions, jobs: seq<Job>, j: nat, k: nat, i: nat)
    requires j < |jobs| && k < |jobs[j].events| && jobs[j].events[k].Ran? && i < |jobs[j].combos|
    ensures Leg(x, jobs[j], k, i) in AllRuns(x, jobs)
  {
    var r := Leg(x, jobs[j], k, i);
    assert Gives(x, jobs[j], i, r);
    JobRunsMembers(x, jobs[j], |jobs[j].events|, r);
    AllRunsMembers(x, jobs, r);
  }

  lemma LossIsBlamed(x: Expressions, jobs: seq<Job>, c: Collected, j: nat)
    requires c.runs == AllRuns(x, jobs) && Tables(jobs, |jobs|, c) && j < |jobs| && LosesCoverage(x, jobs[j])
    ensures exists m :: 0 <= m < |c.runs|
                        && (NeverUploaded(jobs[j].key) in Blame(x, c.uploads, c.runs[m])
                            || UploadedTooEarly(jobs[j].key) in Blame(x, c.uploads, c.runs[m]))
  {
    var job := jobs[j];
    var k :| 0 <= k < |job.events| && Produces(x, job, k) && !UploadsAfter(job, k);
    var i :| 0 <= i < |job.combos| && x.produces(x.command(job.events[k].run, job.combos[i]));
    var r := Leg(x, job, k, i);
    LegIsCollected(x, jobs, j, k, i);
    LossBlames(x, jobs, c.uploads, j, k, r);
  }

  lemma LossBlames(x: Expressions, jobs: seq<Job>, uploads: map<string, nat>, j: nat, k: nat, r: WorkflowRun)
    requires UploadTable(jobs, |jobs|, uploads) && j < |jobs| && !UploadsAfter(jobs[j], k)
    requires r.job == jobs[j].key && r.sequence == k && x.produces(r.run) && k < |jobs[j].events|
             && !jobs[j].events[k].Upload?
    ensures NeverUploaded(r.job) in Blame(x, uploads, r) || UploadedTooEarly(r.job) in Blame(x, uploads, r)
  {
    LastUploadIsLast(jobs[j].events);
  }

  lemma BlamedIsLoss(x: Expressions, jobs: seq<Job>, c: Collected, j: nat, r: WorkflowRun)
    requires DistinctKeys(jobs) && c.runs == AllRuns(x, jobs) && Tables(jobs, |jobs|, c) && j < |jobs|
    requires r in c.runs && r.job == jobs[j].key && Blame(x, c.uploads, r) != {}
    ensures LosesCoverage(x, jobs[j])
  {
    AllRunsMembers(x, jobs, r);
    var i :| 0 <= i < |jobs| && r in JobRuns(x, jobs[i], |jobs[i].events|);
    JobRunsMembers(x, jobs[i], |jobs[i].events|, r);
    var job := jobs[j];
    assert i == j;
    LastUploadIsLast(job.events);
    assert Produces(x, job, r.sequence);
  }
}
