/** The newest page of the job table, as the listing shows it, beside the lookup of one job. A page entry
    carries the counters of the job row, which trail the message rows until the job row is written. */
module BulkPage {
  import opened Options
  import opened BulkTables
  import opened BulkSteps
  import opened BulkJobs
  import opened BulkCounts
  import opened BulkAgreement

  /** A job row as the listing shows it, without results. */
  function PageEntry(id: JobId, row: JobRow): Snapshot {
    Snapshot(id, row.session, row.status, row.total, row.sent, row.failed, row.startedAt, row.finishedAt, [])
  }

  /** The action writes the job row of job id. */
  ghost predicate WritesJob(s: System, a: Action, id: JobId) {
    || ((a.FinishWrite? || a.StartWrite?) && a.ok && Concerns(s, a, id))
    || ((a.ResumeFinal? || a.ResumeSkip?) && a.ok && a.id == id)
  }

  ghost function Next(s: System, a: Action, id: JobId, behind: nat): nat {
    if WritesJob(s, a, id) then 0 else if RecordsRow(s, a, id) then behind + 1 else behind
  }

  /** Outcomes recorded for the job since its row was last written. */
  ghost function Behind(acts: seq<Action>, id: JobId): nat {
    if acts == [] then 0 else
      var n := |acts| - 1;
      var before := Exec(Init(), acts[..n]);
      if before.None? then 0 else Next(before.value, acts[n], id, Behind(acts[..n], id))
  }

  /** The job row's counters trail the counts of the message rows by n; a completed job's do not. */
  ghost predicate Trails(row: JobRow, rows: seq<MsgRow>, n: nat) {
    var sent, failed := CountStatus(Results(rows), Sent), CountStatus(Results(rows), Failed);
    && row.sent <= sent && row.failed <= failed && row.sent + row.failed + n == sent + failed
    && (row.status.Completed? ==> n == 0)
  }

  ghost predicate JobTrails(db: Tables, id: JobId, n: nat) {
    id in db.jobs && id in db.messages ==> Trails(db.jobs[id], db.messages[id], n)
  }

  /** A recorded outcome moves one recipient from pending to sent or failed. */
  lemma RecordTrails(db: Tables, p: Runner, n: nat)
    requires RunnerAgrees(db, p) && p.phase.InFlight? && p.job.id in db.jobs && JobTrails(db, p.job.id, n)
    ensures JobTrails(UpdateMessage(db, p.job.id, p.items[0].idx, p.phase.res), p.job.id, n + 1)
  {
    var id, idx, res := p.job.id, p.items[0].idx, p.phase.res;
    assert ItemOk(p.job, p.items[0]);
    assert Results(db.messages[id])[idx] == db.messages[id][idx].result;
    WriteAt(db, id, idx, res);
    CountUpdate(Results(db.messages[id]), idx, res, Sent);
    CountUpdate(Results(db.messages[id]), idx, res, Failed);
  }

  /** A job row written from a job that counts the message rows. */
  lemma LevelAfter(db: Tables, job: Snapshot, id: JobId)
    requires job.id == id && (id in db.jobs && id in db.messages ==>
      && job.sent == CountStatus(Results(db.messages[id]), Sent)
      && job.failed == CountStatus(Results(db.messages[id]), Failed))
    ensures JobTrails(UpdateJob(db, job), id, 0)
  {
  }

  lemma RunnerLevels(db: Tables, p: Runner)
    requires RunnerAgrees(db, p) && (p.phase.Finishing? || p.phase.Starting?)
    ensures JobTrails(UpdateJob(db, p.job), p.job.id, 0)
  {
    LevelAfter(db, p.job, p.job.id);
  }

  lemma JobWritten(s: System, a: Action, id: JobId)
    requires Step(s, a).Some? && OfRunner(a) && WritesJob(s, a, id)
    ensures a.runner in s.runners && s.runners[a.runner].job.id == id
    ensures s.runners[a.runner].phase.Finishing? || s.runners[a.runner].phase.Starting?
    ensures Step(s, a).value.db == UpdateJob(s.db, s.runners[a.runner].job)
  {
  }

  lemma RunnerJobTrails(s: System, a: Action, id: JobId)
    requires Agreement(s, id) && Step(s, a).Some? && OfRunner(a) && WritesJob(s, a, id)
    ensures JobTrails(Step(s, a).value.db, id, 0)
  {
    JobWritten(s, a, id);
    RunnerOfJobAgrees(s, id, a.runner);
    RunnerLevels(s.db, s.runners[a.runner]);
  }

  lemma RecoveredJobTrails(s: System, a: Action, id: JobId)
    requires Agreement(s, id) && Step(s, a).Some? && !OfRunner(a) && WritesJob(s, a, id)
    ensures JobTrails(Step(s, a).value.db, id, 0)
  {
    assert EntryAgrees(s.db, id, s.loaded[id]);
    LevelAfter(s.db, s.loaded[id].job.(status := if a.ResumeFinal? then Completed else Interrupted,
                                       finishedAt := a.now), id);
  }

  lemma FreshCount(msgs: seq<BulkMessage>)
    ensures CountStatus(Results(FreshRows(msgs)), Sent) == 0 && CountStatus(Results(FreshRows(msgs)), Failed) == 0
  {
    assert Results(FreshRows(msgs)) == FreshResults(msgs);
    CountZero(FreshResults(msgs), Sent);
    CountZero(FreshResults(msgs), Failed);
  }

  lemma SubmitTrails(s: System, a: Action, id: JobId, n: nat)
    requires Base(s) && Step(s, a).Some? && a.Submit? && JobTrails(s.db, id, n) && (id !in s.db.jobs ==> n == 0)
    ensures JobTrails(Step(s, a).value.db, id, n)
  {
    if a.id == id {
      FreshCount(a.msgs);
    }
  }

  /** The job's row and message rows are as before, but for a mark of interruption. */
  ghost predicate SameCounters(db: Tables, db': Tables, id: JobId) {
    && (id in db'.jobs ==> id in db.jobs && (db'.jobs[id].status.Completed? ==> db.jobs[id].status.Completed?)
                           && db'.jobs[id].sent == db.jobs[id].sent && db'.jobs[id].failed == db.jobs[id].failed)
    && (id in db'.messages ==> id in db.messages && db'.messages[id] == db.messages[id])
  }

  /** Every other step leaves the job's counters and rows alone, and completes nothing. */
  lemma OtherRunnerTrails(s: System, a: Action, id: JobId)
    requires Step(s, a).Some? && OfRunner(a) && OrderlyStep(s, a, id) && !WritesJob(s, a, id) && !RecordsRow(s, a, id)
    ensures SameCounters(s.db, Step(s, a).value.db, id)
  {
  }

  lemma OtherTrails(s: System, a: Action, id: JobId)
    requires Step(s, a).Some? && !OfRunner(a) && !a.Submit? && OrderlyStep(s, a, id) && !WritesJob(s, a, id)
    requires (a.ResumeFinal? || a.ResumeSkip?) && a.id in s.loaded ==> s.loaded[a.id].job.id == a.id
    ensures SameCounters(s.db, Step(s, a).value.db, id)
  {
  }

  /** Only a persisted job has outcomes on record. */
  ghost predicate Tracks(s: System, id: JobId, n: nat) {
    Agreement(s, id) && JobTrails(s.db, id, n) && (id !in s.db.jobs ==> n == 0)
  }

  lemma JobsStay(s: System, a: Action, id: JobId)
    requires Step(s, a).Some? && id in s.db.jobs
    ensures id in Step(s, a).value.db.jobs
  {
  }

  lemma RunnerTrails(s: System, a: Action, id: JobId, n: nat)
    requires Tracks(s, id, n) && Step(s, a).Some? && OrderlyStep(s, a, id) && OfRunner(a)
    ensures JobTrails(Step(s, a).value.db, id, Next(s, a, id, n))
  {
    if WritesJob(s, a, id) {
      RunnerJobTrails(s, a, id);
    } else if RecordsRow(s, a, id) {
      RunnerOfJobAgrees(s, id, a.runner);
      RecordTrails(s.db, s.runners[a.runner], n);
    } else {
      OtherRunnerTrails(s, a, id);
    }
  }

  lemma TableTrails(s: System, a: Action, id: JobId, n: nat)
    requires Tracks(s, id, n) && Step(s, a).Some? && OrderlyStep(s, a, id) && !OfRunner(a)
    ensures JobTrails(Step(s, a).value.db, id, Next(s, a, id, n))
  {
    if WritesJob(s, a, id) {
      RecoveredJobTrails(s, a, id);
    } else if a.Submit? {
      SubmitTrails(s, a, id, n);
    } else {
      OtherTrails(s, a, id);
    }
  }

  lemma StepTracks(s: System, a: Action, id: JobId, n: nat)
    requires Tracks(s, id, n) && Step(s, a).Some? && OrderlyStep(s, a, id)
    ensures Tracks(Step(s, a).value, id, Next(s, a, id, n))
  {
    StepAgrees(s, a, id);
    if OfRunner(a) {
      RunnerTrails(s, a, id, n);
    } else {
      TableTrails(s, a, id, n);
    }
    if id in s.db.jobs {
      JobsStay(s, a, id);
    }
  }

  lemma {:induction false} RunTracks(acts: seq<Action>, id: JobId)
    requires Orderly(acts, id) && Exec(Init(), acts).Some?
    ensures Tracks(Exec(Init(), acts).value, id, Behind(acts, id))
  {
    if acts != [] {
      var n := |acts| - 1;
      RunTracks(acts[..n], id);
      StepTracks(Exec(Init(), acts[..n]).value, acts[n], id, Behind(acts[..n], id));
    }
  }

  /** A page entry shows what the lookup in the tables shows, without the results, except that its
      counters miss the outcomes recorded since the job row was written; so they agree exactly when
      there are none, and always for a completed job. */
  lemma ListedExactly(acts: seq<Action>, s: System, id: JobId)
    requires Reached(acts, s, id) && id in s.db.jobs
    ensures LoadJob(s.db, id).Some?
    ensures var listed, job := PageEntry(id, s.db.jobs[id]), LoadJob(s.db, id).value;
      && listed.(sent := job.sent, failed := job.failed) == job.(results := [])
      && listed.sent <= job.sent && listed.failed <= job.failed
      && listed.sent + listed.failed + Behind(acts, id) == job.sent + job.failed
      && (listed == job.(results := []) <==> Behind(acts, id) == 0)
      && (job.status.Completed? ==> listed == job.(results := []))
  {
    RunTracks(acts, id);
  }
}
