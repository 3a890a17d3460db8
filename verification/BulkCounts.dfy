/** The counters of every job anyone can see, in every run: whatever crashes, failing writes and
    unlucky recoveries do to the tables, each snapshot counts its own results. */
module BulkCounts {
  import opened Options
  import opened BulkTables
  import opened BulkSteps
  import opened BulkJobs

  ghost predicate CountersOk(job: Snapshot) {
    && job.sent == CountStatus(job.results, Sent)
    && job.failed == CountStatus(job.results, Failed)
    && job.total == |job.results|
  }

  ghost predicate ItemPending(job: Snapshot, item: BulkItem) {
    item.idx < |job.results| && job.results[item.idx].status.Pending?
  }

  /** The job counts its results, and the items still to do are pending in it. */
  ghost predicate JobCounts(job: Snapshot, items: seq<BulkItem>) {
    && CountersOk(job)
    && (forall k :: 0 <= k < |items| ==> ItemPending(job, items[k]))
    && (forall k, l :: 0 <= k < l < |items| ==> items[k].idx < items[l].idx)
  }

  ghost predicate RunnerCounts(p: Runner) {
    && JobCounts(p.job, p.items)
    && (p.phase.InFlight? || p.phase.Written? ==> !p.phase.res.status.Pending?)
  }

  ghost predicate EntryCounts(e: Resumable) {
    JobCounts(e.job, e.pending)
  }

  ghost predicate TablesCount(db: Tables) {
    && db.jobs.Keys == db.messages.Keys
    && forall id :: id in db.jobs ==> db.jobs[id].total == |db.messages[id]| && db.messages[id] != []
  }

  /** The total column of a selected job row is that of the table. */
  ghost predicate HeadsCount(heads: map<JobId, JobRow>, db: Tables) {
    forall id :: id in heads ==> id in db.jobs && heads[id].total == db.jobs[id].total
  }

  ghost predicate AllCount(s: System) {
    && TablesCount(s.db)
    && HeadsCount(s.heads, s.db)
    && (forall r :: r in s.runners ==> RunnerCounts(s.runners[r]))
    && (forall id :: id in s.loaded ==> EntryCounts(s.loaded[id]))
  }

  // ---- what single steps do ----

  lemma FreshCounts(id: JobId, session: string, msgs: seq<BulkMessage>, now: int)
    ensures JobCounts(FreshJob(id, session, msgs, now), FreshItems(msgs))
  {
    CountZero(FreshResults(msgs), Sent);
    CountZero(FreshResults(msgs), Failed);
  }

  lemma SettleCounters(job: Snapshot, item: BulkItem, res: BulkResult)
    requires CountersOk(job) && ItemPending(job, item) && !res.status.Pending?
    ensures CountersOk(SettleJob(job, item.idx, res))
  {
    CountUpdate(job.results, item.idx, res, Sent);
    CountUpdate(job.results, item.idx, res, Failed);
  }

  lemma SettleCounts(job: Snapshot, items: seq<BulkItem>, res: BulkResult)
    requires JobCounts(job, items) && items != [] && !res.status.Pending?
    ensures JobCounts(SettleJob(job, items[0].idx, res), items[1..])
  {
    assert ItemPending(job, items[0]);
    SettleCounters(job, items[0], res);
    var after := SettleJob(job, items[0].idx, res);
    forall k | 0 <= k < |items[1..]| ensures ItemPending(after, items[1..][k]) {
      assert ItemPending(job, items[k + 1]);
    }
  }

  lemma ResumeCounts(id: JobId, row: JobRow, rows: seq<MsgRow>)
    requires row.total == |rows|
    ensures EntryCounts(Resume(id, row, rows))
  {
    var e := Resume(id, row, rows);
    forall k | 0 <= k < |e.pending| ensures ItemPending(e.job, e.pending[k]) {
      assert rows[e.pending[k].idx].result.status.Pending?;
    }
  }

  lemma RowWriteCounts(db: Tables, id: JobId, idx: nat, res: BulkResult)
    requires TablesCount(db)
    ensures TablesCount(UpdateMessage(db, id, idx, res))
  {
  }

  lemma JobWriteCounts(db: Tables, job: Snapshot)
    requires TablesCount(db)
    ensures TablesCount(UpdateJob(db, job))
  {
  }

  lemma RowStep(s: System, a: Action)
    requires TablesCount(s.db) && Step(s, a).Some? && a.WriteRow?
    ensures TablesCount(Step(s, a).value.db)
  {
    var p := s.runners[a.runner];
    RowWriteCounts(s.db, p.job.id, p.items[0].idx, p.phase.res);
  }

  lemma JobStep(s: System, a: Action)
    requires TablesCount(s.db) && Step(s, a).Some?
    requires a.FinishWrite? || a.StartWrite? || a.ResumeFinal? || a.ResumeSkip?
    ensures TablesCount(Step(s, a).value.db)
  {
    forall job: Snapshot ensures TablesCount(UpdateJob(s.db, job)) {
      JobWriteCounts(s.db, job);
    }
  }

  lemma SubmitStep(s: System, a: Action)
    requires TablesCount(s.db) && Step(s, a).Some? && (a.Submit? || a.Mark?)
    ensures TablesCount(Step(s, a).value.db)
  {
  }

  lemma OtherStep(s: System, a: Action)
    requires Step(s, a).Some? && !a.WriteRow? && !a.FinishWrite? && !a.StartWrite? && !a.ResumeFinal?
    requires !a.ResumeSkip? && !a.Submit? && !a.Mark?
    ensures Step(s, a).value.db == s.db
  {
  }

  lemma TablesStep(s: System, a: Action)
    requires TablesCount(s.db) && Step(s, a).Some?
    ensures TablesCount(Step(s, a).value.db)
  {
    match a
    case WriteRow(_, _) => RowStep(s, a);
    case FinishWrite(_, _) => JobStep(s, a);
    case StartWrite(_, _) => JobStep(s, a);
    case ResumeFinal(_, _, _) => JobStep(s, a);
    case ResumeSkip(_, _, _) => JobStep(s, a);
    case Submit(_, _, _, _, _, _) => SubmitStep(s, a);
    case Mark(_, _) => SubmitStep(s, a);
    case _ => OtherStep(s, a);
  }

  /** The action changes or adds one runner, which counts afterwards. */
  ghost predicate MovesOne(s: System, t: System, r: RunnerId) {
    r in t.runners && t.runners == s.runners[r := t.runners[r]] && RunnerCounts(t.runners[r])
  }

  lemma SubmitMoves(s: System, a: Action)
    requires Step(s, a).Some? && a.Submit?
    ensures MovesOne(s, Step(s, a).value, a.runner)
  {
    FreshCounts(a.id, a.session, a.msgs, a.now);
  }

  lemma SettleMoves(s: System, a: Action)
    requires Step(s, a).Some? && a.Settle? && RunnerCounts(s.runners[a.runner])
    ensures MovesOne(s, Step(s, a).value, a.runner)
  {
    SettleCounts(s.runners[a.runner].job, s.runners[a.runner].items, s.runners[a.runner].phase.res);
  }

  lemma ResumeMoves(s: System, a: Action)
    requires Step(s, a).Some? && a.ResumeStart? && EntryCounts(s.loaded[a.id])
    ensures MovesOne(s, Step(s, a).value, a.runner)
  {
  }

  lemma PhaseMoves(s: System, a: Action)
    requires Step(s, a).Some? && (a.Register? || a.Check? || a.Attempt? || a.WriteRow? || a.Finish?)
    requires RunnerCounts(s.runners[a.runner])
    ensures MovesOne(s, Step(s, a).value, a.runner)
  {
  }

  lemma JobWriteMoves(s: System, a: Action)
    requires Step(s, a).Some? && (a.FinishWrite? || a.StartWrite?) && RunnerCounts(s.runners[a.runner])
    ensures MovesOne(s, Step(s, a).value, a.runner)
  {
  }

  lemma NobodyMoves(s: System, a: Action)
    requires Step(s, a).Some? && !OfRunner(a) && !a.Submit? && !a.ResumeStart?
    ensures Step(s, a).value.runners == if a.Crash? then map[] else s.runners
  {
  }

  lemma RunnersStep(s: System, a: Action)
    requires AllCount(s) && Step(s, a).Some?
    ensures var t := Step(s, a).value; forall r :: r in t.runners ==> RunnerCounts(t.runners[r])
  {
    if a.Submit? {
      SubmitMoves(s, a);
    } else if a.ResumeStart? {
      ResumeMoves(s, a);
    } else if !OfRunner(a) {
      NobodyMoves(s, a);
    } else if a.Settle? {
      SettleMoves(s, a);
    } else if a.FinishWrite? || a.StartWrite? {
      JobWriteMoves(s, a);
    } else {
      PhaseMoves(s, a);
    }
  }

  lemma LoadedStep(s: System, a: Action)
    requires AllCount(s) && Step(s, a).Some?
    ensures var t := Step(s, a).value; forall id :: id in t.loaded ==> EntryCounts(t.loaded[id])
  {
    if a.ReadRows? {
      ResumeCounts(a.id, s.heads[a.id], s.db.messages[a.id]);
    }
  }

  /** The total column of every job row stays. */
  ghost predicate SameTotals(db: Tables, db': Tables) {
    db'.jobs.Keys == db.jobs.Keys && forall id :: id in db.jobs ==> db'.jobs[id].total == db.jobs[id].total
  }

  lemma RunnerTotals(s: System, a: Action)
    requires Step(s, a).Some? && OfRunner(a)
    ensures SameTotals(s.db, Step(s, a).value.db) && Step(s, a).value.heads == s.heads
  {
  }

  lemma OtherTotals(s: System, a: Action)
    requires Step(s, a).Some? && !OfRunner(a) && !a.Submit?
    ensures SameTotals(s.db, Step(s, a).value.db)
  {
  }

  lemma HeadsStep(s: System, a: Action)
    requires HeadsCount(s.heads, s.db) && Step(s, a).Some? && (a.Submit? ==> a.id !in s.db.jobs)
    ensures HeadsCount(Step(s, a).value.heads, Step(s, a).value.db)
  {
    if OfRunner(a) {
      RunnerTotals(s, a);
    } else if !a.Submit? {
      OtherTotals(s, a);
    }
  }

  lemma StepCounts(s: System, a: Action)
    requires Base(s) && AllCount(s) && Step(s, a).Some?
    ensures Base(Step(s, a).value) && AllCount(Step(s, a).value)
  {
    BaseKeeps(s, a);
    HeadsStep(s, a);
    TablesStep(s, a);
    LoadedStep(s, a);
    RunnersStep(s, a);
  }

  lemma {:induction false} RunCounts(acts: seq<Action>)
    requires Exec(Init(), acts).Some?
    ensures Base(Exec(Init(), acts).value) && AllCount(Exec(Init(), acts).value)
  {
    if acts != [] {
      var n := |acts| - 1;
      RunCounts(acts[..n]);
      StepCounts(Exec(Init(), acts[..n]).value, acts[n]);
    }
  }

  // ---- what callers see ----

  /** A job by id: from memory first, then from the tables. */
  ghost function JobView(s: System, id: JobId): Option<Snapshot> {
    if id in s.registry && s.registry[id] in s.runners then Some(s.runners[s.registry[id]].job) else LoadJob(s.db, id)
  }

  ghost predicate Adds(job: Snapshot) {
    && CountersOk(job)
    && job.sent + job.failed + CountStatus(job.results, Pending) == job.total
  }

  /** In every run whatsoever, each job a lookup answers, from memory or from the tables, and each job
      any runner holds, has sent and failed equal to the counts of its results and nobody missing. */
  lemma SnapshotCounts(acts: seq<Action>, s: System)
    requires Exec(Init(), acts) == Some(s)
    ensures forall id :: JobView(s, id).Some? ==> Adds(JobView(s, id).value)
    ensures forall r :: r in s.runners ==> Adds(s.runners[r].job)
    ensures forall id :: id in s.db.jobs ==> LoadJob(s.db, id).Some? && Adds(LoadJob(s.db, id).value)
  {
    RunCounts(acts);
    forall r | r in s.runners ensures Adds(s.runners[r].job) {
      assert RunnerCounts(s.runners[r]);
      CountsPartition(s.runners[r].job.results);
    }
    forall id | id in s.db.jobs ensures LoadJob(s.db, id).Some? && Adds(LoadJob(s.db, id).value) {
      CountsPartition(Results(s.db.messages[id]));
    }
  }
}
