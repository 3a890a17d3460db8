/** What a caller sees of one job while its own table updates succeed and recovery does not read its rows
    beside a runner of it, whatever happens to other jobs: counters match results, memory and tables differ
    in at most the row just written, and a finished job reads the same from memory and from the tables. */
module BulkAgreement {
  import opened Options
  import opened BulkTables
  import opened BulkSteps
  import opened BulkJobs
  import opened BulkCounts

  ghost predicate ItemOk(job: Snapshot, item: BulkItem) {
    ItemPending(job, item) && job.results[item.idx].to == item.to
  }

  /** The results the message rows must hold for this runner: memory, with the row ahead by one write. */
  ghost function ExpectedResults(p: Runner): seq<BulkResult> {
    if p.phase.Written? && p.items != [] && p.items[0].idx < |p.job.results|
    then p.job.results[p.items[0].idx := p.phase.res] else p.job.results
  }

  /** The runner's own consistency. */
  ghost predicate JobOk(p: Runner) {
    && CountersOk(p.job) && p.job.results != []
    && (forall k :: 0 <= k < |p.items| ==> ItemOk(p.job, p.items[k]))
    && (forall k, l :: 0 <= k < l < |p.items| ==> p.items[k].idx < p.items[l].idx)
    && (p.phase.Checked? || p.phase.InFlight? || p.phase.Written? ==> p.items != [])
    && (p.phase.InFlight? || p.phase.Written? ==> p.phase.res.to == p.items[0].to && !p.phase.res.status.Pending?)
    && (if p.phase.Finishing? || p.phase.Done? then !p.job.status.Running?
        else p.job.status.Running? && p.job.finishedAt == 0)
  }

  ghost predicate JobRowOk(row: JobRow, p: Runner) {
    && row.session == p.job.session && row.total == p.job.total && row.startedAt == p.job.startedAt
    && (p.phase.Done? ==>
         && row.status == p.job.status && row.finishedAt == p.job.finishedAt
         && row.sent == p.job.sent && row.failed == p.job.failed)
    && (p.phase.Starting? ==> !row.status.Completed?)
    && (!p.phase.Done? && !p.phase.Starting? ==> row.status.Running? && row.finishedAt == 0)
  }

  /** The runner is consistent, and so are the tables with it when its job is persisted. */
  ghost predicate RunnerAgrees(db: Tables, p: Runner) {
    && JobOk(p)
    && (p.job.id in db.jobs ==>
         && p.job.id in db.messages
         && Results(db.messages[p.job.id]) == ExpectedResults(p)
         && JobRowOk(db.jobs[p.job.id], p))
  }

  /** The job has one runner at most, which agrees with the tables; an interrupted job means the service
      is stopping. */
  ghost predicate TeamAgrees(db: Tables, team: Runners, quit: bool) {
    && (forall q, r :: q in team && r in team ==> q == r)
    && (forall r :: r in team ==> RunnerAgrees(db, team[r]) && (team[r].job.status.Interrupted? ==> quit))
  }

  ghost predicate EntryAgrees(db: Tables, id: JobId, entry: Resumable) {
    && id in db.jobs && id in db.messages && !db.jobs[id].status.Completed?
    && entry == Resume(id, db.jobs[id], db.messages[id])
  }

  /** The row now, of a job selected earlier: completed at most by a runner of this lifetime. */
  ghost predicate HeadAgrees(head: JobRow, db: Tables, id: JobId, team: Runners) {
    && id in db.jobs && head.session == db.jobs[id].session && head.total == db.jobs[id].total
    && head.startedAt == db.jobs[id].startedAt
    && (db.jobs[id].status.Completed? ==> team != map[])
  }

  ghost predicate JobAgrees(s: System, id: JobId) {
    var team := Team(s.runners, id);
    && TeamAgrees(s.db, team, s.quit)
    && (id in s.loaded ==> team == map[] && EntryAgrees(s.db, id, s.loaded[id]))
    && (id in s.heads ==> HeadAgrees(s.heads[id], s.db, id, team))
    && (id in s.registry ==> s.registry[id] in team)
  }

  /** What holds of job id in every orderly run. */
  ghost predicate Agreement(s: System, id: JobId) {
    Base(s) && TablesCount(s.db) && JobAgrees(s, id)
  }

  /** The job is not persisted, or no runner of this lifetime has it still on its way. */
  ghost predicate AtRest(s: System, id: JobId) {
    id in s.db.jobs ==> forall r :: r in s.runners && s.runners[r].job.id == id ==> s.runners[r].phase.Done?
  }

  /** The updates its runners make succeed (its insert and recovery's updates may fail), recovery reads its
      rows when it has no runner, and jobs are marked interrupted when it is at rest. */
  ghost predicate OrderlyStep(s: System, a: Action, id: JobId) {
    match a
    case WriteRow(_, ok) => Concerns(s, a, id) ==> ok
    case FinishWrite(_, ok) => Concerns(s, a, id) ==> ok
    case StartWrite(_, ok) => Concerns(s, a, id) ==> ok
    case ReadRows(j) => j == id ==> s.quit || Team(s.runners, id) == map[]
    case Mark(_, _) => AtRest(s, id)
    case _ => true
  }

  ghost predicate Orderly(acts: seq<Action>, id: JobId) {
    acts == [] ||
    (var n := |acts| - 1; var before := Exec(Init(), acts[..n]);
     Orderly(acts[..n], id) && (before.Some? ==> OrderlyStep(before.value, acts[n], id)))
  }

  lemma RunnerOfJobAgrees(s: System, id: JobId, r: RunnerId)
    requires JobAgrees(s, id) && r in s.runners && s.runners[r].job.id == id
    ensures RunnerAgrees(s.db, s.runners[r]) && (s.runners[r].job.status.Interrupted? ==> s.quit)
  {
    assert Team(s.runners, id)[r] == s.runners[r];
  }

  // ---- the job's runner moves ----

  /** The job's fixed columns stay. */
  ghost predicate SameColumns(db: Tables, db': Tables, id: JobId) {
    && (id in db'.jobs <==> id in db.jobs)
    && (id in db.jobs ==>
         && db'.jobs[id].total == db.jobs[id].total && db'.jobs[id].session == db.jobs[id].session
         && db'.jobs[id].startedAt == db.jobs[id].startedAt)
  }

  lemma TeamMoved(db: Tables, db': Tables, team: Runners, quit: bool, r: RunnerId, q: Runner)
    requires TeamAgrees(db, team, quit) && r in team && RunnerAgrees(db', q) && (q.job.status.Interrupted? ==> quit)
    ensures TeamAgrees(db', team[r := q], quit)
  {
    assert forall o :: o in team ==> o == r;
  }

  lemma HeadMoved(head: JobRow, db: Tables, db': Tables, id: JobId, team: Runners, r: RunnerId, q: Runner)
    requires HeadAgrees(head, db, id, team) && SameColumns(db, db', id)
    ensures HeadAgrees(head, db', id, team[r := q])
  {
    assert r in team[r := q];
  }

  /** A step of the job's runner keeps the agreement when the runner agrees afterwards. */
  lemma RunnerMoved(s: System, t: System, id: JobId, r: RunnerId, q: Runner)
    requires JobAgrees(s, id) && r in s.runners && s.runners[r].job.id == id && q.job.id == id
    requires t.runners == s.runners[r := q] && t.loaded == s.loaded && t.heads == s.heads && t.quit == s.quit
    requires id in t.registry ==> t.registry[id] == r || (id in s.registry && t.registry[id] == s.registry[id])
    requires SameColumns(s.db, t.db, id) && RunnerAgrees(t.db, q) && (q.job.status.Interrupted? ==> s.quit)
    ensures JobAgrees(t, id)
  {
    var team := Team(s.runners, id);
    TeamPut(s.runners, r, q, id);
    TeamMoved(s.db, t.db, team, s.quit, r, q);
    if id in s.heads {
      HeadMoved(s.heads[id], s.db, t.db, id, team, r, q);
    }
  }

  /** Phase changes that neither open a written row nor finish. */
  lemma PhaseAgrees(db: Tables, p: Runner, phase: Phase)
    requires RunnerAgrees(db, p)
    requires (p.phase.Unregistered? && phase.Idle?)
          || (p.phase.Idle? && phase.Checked? && p.items != [])
          || (p.phase.Checked? && phase.InFlight? && phase.res.to == p.items[0].to && !phase.res.status.Pending?)
    ensures RunnerAgrees(db, p.(phase := phase))
  {
  }

  lemma RegistersOne(s: System, a: Action)
    requires a.Register? && Step(s, a).Some?
    ensures var t := Step(s, a).value; var p := s.runners[a.runner];
      && t == s.(runners := s.runners[a.runner := p.(phase := Idle)], registry := t.registry)
      && p.phase.Unregistered? && p.job.id in t.registry && t.registry[p.job.id] == a.runner
  {
  }

  lemma RegisterAgrees(s: System, a: Action, id: JobId)
    requires JobAgrees(s, id) && Step(s, a).Some? && a.Register? && Concerns(s, a, id)
    ensures JobAgrees(Step(s, a).value, id)
  {
    RegistersOne(s, a);
    var p := s.runners[a.runner];
    RunnerOfJobAgrees(s, id, a.runner);
    PhaseAgrees(s.db, p, Idle);
    RunnerMoved(s, Step(s, a).value, id, a.runner, p.(phase := Idle));
  }

  lemma PhaseStepAgrees(s: System, a: Action, id: JobId)
    requires JobAgrees(s, id) && Step(s, a).Some? && (a.Check? || a.Attempt?) && Concerns(s, a, id)
    ensures JobAgrees(Step(s, a).value, id)
  {
    var t := Step(s, a).value;
    var p, q := s.runners[a.runner], t.runners[a.runner];
    RunnerOfJobAgrees(s, id, a.runner);
    PhaseAgrees(s.db, p, q.phase);
    RunnerMoved(s, t, id, a.runner, q);
  }

  lemma FinishLeaves(db: Tables, p: Runner, status: JobStatus, now: int)
    requires RunnerAgrees(db, p) && p.phase.Idle? && !status.Running?
    ensures RunnerAgrees(db, p.(job := FinishJob(p.job, status, now), phase := Finishing))
    ensures FinishJob(p.job, status, now).status == status
  {
  }

  lemma FinishAgrees(s: System, a: Action, id: JobId)
    requires JobAgrees(s, id) && Step(s, a).Some? && a.Finish? && Concerns(s, a, id)
    ensures JobAgrees(Step(s, a).value, id)
  {
    var t := Step(s, a).value;
    var p, q := s.runners[a.runner], t.runners[a.runner];
    RunnerOfJobAgrees(s, id, a.runner);
    FinishLeaves(s.db, p, if p.items == [] then Completed else Interrupted, a.now);
    RunnerMoved(s, t, id, a.runner, q);
  }

  /** Writing the job row brings it level with the job. */
  lemma JobRowLevels(db: Tables, p: Runner, phase: Phase)
    requires RunnerAgrees(db, p)
    requires (p.phase.Finishing? && phase.Done?) || (p.phase.Starting? && phase.Idle?)
    ensures SameColumns(db, UpdateJob(db, p.job), p.job.id)
    ensures RunnerAgrees(UpdateJob(db, p.job), p.(phase := phase))
  {
  }

  lemma TableStepAgrees(s: System, a: Action, id: JobId)
    requires JobAgrees(s, id) && Step(s, a).Some? && (a.FinishWrite? || a.StartWrite?) && a.ok && Concerns(s, a, id)
    ensures JobAgrees(Step(s, a).value, id)
  {
    var t := Step(s, a).value;
    var p, q := s.runners[a.runner], t.runners[a.runner];
    RunnerOfJobAgrees(s, id, a.runner);
    JobRowLevels(s.db, p, q.phase);
    RunnerMoved(s, t, id, a.runner, q);
  }

  /** Writing one row changes one result. */
  lemma WriteAt(db: Tables, id: JobId, idx: nat, res: BulkResult)
    requires id in db.messages && idx < |db.messages[id]| && db.messages[id][idx].result.to == res.to
    ensures var db' := UpdateMessage(db, id, idx, res);
      id in db'.messages && Results(db'.messages[id]) == Results(db.messages[id])[idx := res]
  {
    assert Results(db.messages[id])[idx] == db.messages[id][idx].result;
  }

  /** Writing the outcome of the head item puts the row exactly one step ahead of memory. */
  lemma WriteAhead(db: Tables, p: Runner)
    requires RunnerAgrees(db, p) && p.phase.InFlight?
    ensures var db' := UpdateMessage(db, p.job.id, p.items[0].idx, p.phase.res);
      SameColumns(db, db', p.job.id) && RunnerAgrees(db', p.(phase := Written(p.phase.res)))
  {
    var id, idx := p.job.id, p.items[0].idx;
    assert ItemOk(p.job, p.items[0]);
    if id in db.jobs {
      assert Results(db.messages[id])[idx] == db.messages[id][idx].result;
      WriteAt(db, id, idx, p.phase.res);
    }
  }

  lemma WriteAgrees(s: System, a: Action, id: JobId)
    requires JobAgrees(s, id) && Step(s, a).Some? && a.WriteRow? && a.ok && Concerns(s, a, id)
    ensures JobAgrees(Step(s, a).value, id)
  {
    var t := Step(s, a).value;
    var p := s.runners[a.runner];
    RunnerOfJobAgrees(s, id, a.runner);
    WriteAhead(s.db, p);
    RunnerMoved(s, t, id, a.runner, t.runners[a.runner]);
  }

  lemma SettledJobOk(p: Runner)
    requires JobOk(p) && p.phase.Written?
    ensures JobOk(Runner(SettleJob(p.job, p.items[0].idx, p.phase.res), p.items[1..], Idle))
  {
    assert ItemOk(p.job, p.items[0]);
    SettleCounters(p.job, p.items[0], p.phase.res);
    var job := SettleJob(p.job, p.items[0].idx, p.phase.res);
    forall k | 0 <= k < |p.items[1..]| ensures ItemOk(job, p.items[1..][k]) {
      assert ItemOk(p.job, p.items[k + 1]);
    }
  }

  /** Settling brings memory level with the row. */
  lemma SettleLevels(db: Tables, p: Runner)
    requires RunnerAgrees(db, p) && p.phase.Written?
    ensures RunnerAgrees(db, Runner(SettleJob(p.job, p.items[0].idx, p.phase.res), p.items[1..], Idle))
  {
    SettledJobOk(p);
  }

  lemma SettleAgrees(s: System, a: Action, id: JobId)
    requires JobAgrees(s, id) && Step(s, a).Some? && a.Settle? && Concerns(s, a, id)
    ensures JobAgrees(Step(s, a).value, id)
  {
    var t := Step(s, a).value;
    RunnerOfJobAgrees(s, id, a.runner);
    SettleLevels(s.db, s.runners[a.runner]);
    RunnerMoved(s, t, id, a.runner, t.runners[a.runner]);
  }

  // ---- new runners ----

  lemma FreshAgrees(db: Tables, job: Snapshot, msgs: seq<BulkMessage>, id: JobId, session: string, now: int, ok: bool)
    requires msgs != [] && id !in db.jobs && job == FreshJob(id, session, msgs, now)
    ensures RunnerAgrees(if ok then SaveJob(db, job, msgs) else db, Runner(job, FreshItems(msgs), Unregistered))
  {
    CountZero(FreshResults(msgs), Sent);
    CountZero(FreshResults(msgs), Failed);
    assert Results(FreshRows(msgs)) == FreshResults(msgs);
  }

  /** The job has exactly this runner, and recovery has nothing of it on its list. */
  lemma OnlyRunner(t: System, id: JobId, r: RunnerId)
    requires r in t.runners && Team(t.runners, id) == map[r := t.runners[r]] && RunnerAgrees(t.db, t.runners[r])
    requires t.runners[r].job.status.Running? && id !in t.loaded && id !in t.heads
    requires id in t.registry ==> t.registry[id] == r
    ensures JobAgrees(t, id)
  {
  }

  lemma SubmitAgrees(s: System, a: Action)
    requires Base(s) && a.Submit? && JobAgrees(s, a.id) && Step(s, a).Some?
    ensures JobAgrees(Step(s, a).value, a.id)
  {
    var t := Step(s, a).value;
    var p := t.runners[a.runner];
    SubmitView(s, a);
    NobodyKnows(s, a.id);
    FreshAgrees(s.db, p.job, a.msgs, a.id, a.session, a.now, a.ok);
    assert ViewOf(s, a.id).team == map[] && ViewOf(t, a.id).team == map[a.runner := p];
    OnlyRunner(t, a.id, a.runner);
  }

  lemma ResumedAgrees(db: Tables, id: JobId)
    requires id in db.jobs && id in db.messages && db.messages[id] != [] && db.jobs[id].total == |db.messages[id]|
    requires !db.jobs[id].status.Completed?
    ensures var e := Resume(id, db.jobs[id], db.messages[id]); RunnerAgrees(db, Runner(e.job, e.pending, Starting))
  {
    PendingItemsMatch(db.messages[id]);
  }

  lemma ResumeStartAgrees(s: System, a: Action)
    requires Base(s) && a.ResumeStart? && TablesCount(s.db) && JobAgrees(s, a.id) && Step(s, a).Some?
    ensures JobAgrees(Step(s, a).value, a.id)
  {
    var t := Step(s, a).value;
    StartView(s, a);
    ResumedAgrees(s.db, a.id);
    assert Team(s.runners, a.id) == map[] && ViewOf(t, a.id).team == map[a.runner := t.runners[a.runner]];
    OnlyRunner(t, a.id, a.runner);
  }

  // ---- recovery ----

  /** The job has no runner in this lifetime, and what recovery holds of it agrees with the tables. */
  lemma NoRunner(t: System, id: JobId)
    requires Team(t.runners, id) == map[] && id !in t.registry
    requires id in t.loaded ==> EntryAgrees(t.db, id, t.loaded[id])
    requires id in t.heads ==> HeadAgrees(t.heads[id], t.db, id, map[])
    ensures JobAgrees(t, id)
  {
  }

  lemma ResumeTableAgrees(s: System, a: Action)
    requires (a.ResumeFinal? || a.ResumeSkip?) && JobAgrees(s, a.id) && Step(s, a).Some?
    ensures JobAgrees(Step(s, a).value, a.id)
  {
    NoRunner(Step(s, a).value, a.id);
  }

  lemma SelectAgrees(s: System, id: JobId)
    requires Base(s) && JobAgrees(s, id) && Step(s, Select).Some?
    ensures JobAgrees(Step(s, Select).value, id)
  {
  }

  /** The rows of a selected job without a runner, read now, agree with the tables. */
  lemma ReadAgrees(s: System, id: JobId)
    requires Base(s) && JobAgrees(s, id) && Step(s, ReadRows(id)).Some? && OrderlyStep(s, ReadRows(id), id)
    ensures JobAgrees(Step(s, ReadRows(id)).value, id)
  {
    if !s.quit {
      NoRunner(Step(s, ReadRows(id)).value, id);
    }
  }

  lemma MarkAgrees(s: System, a: Action, id: JobId)
    requires Base(s) && JobAgrees(s, id) && a.Mark? && Step(s, a).Some? && OrderlyStep(s, a, id)
    ensures JobAgrees(Step(s, a).value, id)
  {
    var t := Step(s, a).value;
    var team := Team(s.runners, id);
    forall r | r in team ensures RunnerAgrees(t.db, team[r]) {
      assert RunnerAgrees(s.db, team[r]);
    }
  }

  // ---- other jobs ----

  /** The job's rows in both tables are the same. */
  ghost predicate SameRows(db: Tables, db': Tables, id: JobId) {
    && (id in db'.jobs <==> id in db.jobs) && (id in db.jobs ==> db'.jobs[id] == db.jobs[id])
    && (id in db'.messages <==> id in db.messages) && (id in db.messages ==> db'.messages[id] == db.messages[id])
  }

  /** Nothing of the job changes, but that it may leave memory, its entry or head may be dropped, and
      the service may begin to stop. */
  ghost predicate Undisturbed(s: System, t: System, id: JobId) {
    && SameRows(s.db, t.db, id) && Team(t.runners, id) == Team(s.runners, id) && (s.quit ==> t.quit)
    && (id in t.loaded ==> id in s.loaded && t.loaded[id] == s.loaded[id])
    && (id in t.heads ==> id in s.heads && t.heads[id] == s.heads[id])
    && (id in t.registry ==> id in s.registry && t.registry[id] == s.registry[id])
  }

  lemma UndisturbedAgrees(s: System, t: System, id: JobId)
    requires JobAgrees(s, id) && Undisturbed(s, t, id)
    ensures JobAgrees(t, id)
  {
    var team := Team(s.runners, id);
    forall r | r in team ensures RunnerAgrees(t.db, team[r]) {
      assert RunnerAgrees(s.db, team[r]);
    }
  }

  lemma RunnerElsewhereRows(s: System, a: Action, id: JobId)
    requires Step(s, a).Some? && OfRunner(a) && !Concerns(s, a, id)
    ensures var t := Step(s, a).value;
      SameRows(s.db, t.db, id) && (id in t.registry ==> id in s.registry && t.registry[id] == s.registry[id])
  {
  }

  /** The action of recovery or of the API is about another job. */
  ghost predicate OfOther(a: Action, id: JobId) {
    && !OfRunner(a) && !a.Select? && !a.Mark? && !a.Crash?
    && (a.Submit? || a.ReadRows? || a.ResumeFinal? || a.ResumeSkip? || a.ResumeStart? ==> a.id != id)
  }

  lemma OtherElsewhereRows(s: System, a: Action, id: JobId)
    requires LoadedKnown(s.loaded, s.db) && Step(s, a).Some? && OfOther(a, id)
    ensures SameRows(s.db, Step(s, a).value.db, id)
  {
  }

  lemma OtherElsewhereLists(s: System, a: Action, id: JobId)
    requires Step(s, a).Some? && OfOther(a, id)
    ensures var t := Step(s, a).value;
      && (s.quit ==> t.quit)
      && (id in t.loaded ==> id in s.loaded && t.loaded[id] == s.loaded[id])
      && (id in t.heads ==> id in s.heads && t.heads[id] == s.heads[id])
      && (id in t.registry ==> id in s.registry && t.registry[id] == s.registry[id])
  {
  }

  lemma OtherAgrees(s: System, a: Action, id: JobId)
    requires Base(s) && JobAgrees(s, id) && Step(s, a).Some?
    requires if OfRunner(a) then !Concerns(s, a, id) else OfOther(a, id)
    ensures JobAgrees(Step(s, a).value, id)
  {
    var t := Step(s, a).value;
    Elsewhere(s, a, id);
    assert ViewOf(t, id).team == ViewOf(s, id).team;
    if OfRunner(a) {
      RunnerElsewhereRows(s, a, id);
      OneMoves(s, a);
    } else {
      OtherElsewhereRows(s, a, id);
      OtherElsewhereLists(s, a, id);
    }
    UndisturbedAgrees(s, t, id);
  }

  // ---- runs ----

  lemma RunnerStepAgrees(s: System, a: Action, id: JobId)
    requires JobAgrees(s, id) && Step(s, a).Some? && OfRunner(a) && Concerns(s, a, id) && OrderlyStep(s, a, id)
    ensures JobAgrees(Step(s, a).value, id)
  {
    match a
    case Register(_, _) => RegisterAgrees(s, a, id);
    case Check(_) => PhaseStepAgrees(s, a, id);
    case Attempt(_, _) => PhaseStepAgrees(s, a, id);
    case WriteRow(_, _) => WriteAgrees(s, a, id);
    case Settle(_) => SettleAgrees(s, a, id);
    case Finish(_, _) => FinishAgrees(s, a, id);
    case FinishWrite(_, _) => TableStepAgrees(s, a, id);
    case StartWrite(_, _) => TableStepAgrees(s, a, id);
  }

  lemma CrashAgrees(s: System, id: JobId)
    ensures JobAgrees(AfterCrash(s), id)
  {
    CrashView(s, id);
    assert ViewOf(AfterCrash(s), id).team == map[];
  }

  lemma RecoveryAgrees(s: System, a: Action, id: JobId)
    requires Base(s) && TablesCount(s.db) && JobAgrees(s, id) && Step(s, a).Some? && OrderlyStep(s, a, id)
    requires (a.ReadRows? || a.ResumeFinal? || a.ResumeSkip? || a.ResumeStart?) && a.id == id
    ensures JobAgrees(Step(s, a).value, id)
  {
    if a.ReadRows? {
      ReadAgrees(s, id);
    } else if a.ResumeStart? {
      ResumeStartAgrees(s, a);
    } else {
      ResumeTableAgrees(s, a);
    }
  }

  lemma OwnStepAgrees(s: System, a: Action, id: JobId)
    requires Agreement(s, id) && Step(s, a).Some? && !OfRunner(a) && !OfOther(a, id) && OrderlyStep(s, a, id)
    ensures JobAgrees(Step(s, a).value, id)
  {
    if a.Submit? {
      SubmitAgrees(s, a);
    } else if a.Select? {
      SelectAgrees(s, id);
    } else if a.Mark? {
      MarkAgrees(s, a, id);
    } else if a.Crash? {
      CrashAgrees(s, id);
    } else {
      RecoveryAgrees(s, a, id);
    }
  }

  lemma StepAgrees(s: System, a: Action, id: JobId)
    requires Agreement(s, id) && Step(s, a).Some? && OrderlyStep(s, a, id)
    ensures Agreement(Step(s, a).value, id)
  {
    BaseKeeps(s, a);
    TablesStep(s, a);
    if OfRunner(a) && Concerns(s, a, id) {
      RunnerStepAgrees(s, a, id);
    } else if OfRunner(a) || OfOther(a, id) {
      OtherAgrees(s, a, id);
    } else {
      OwnStepAgrees(s, a, id);
    }
  }

  lemma {:induction false} RunAgrees(acts: seq<Action>, id: JobId)
    requires Orderly(acts, id) && Exec(Init(), acts).Some?
    ensures Agreement(Exec(Init(), acts).value, id)
  {
    if acts != [] {
      var n := |acts| - 1;
      RunAgrees(acts[..n], id);
      StepAgrees(Exec(Init(), acts[..n]).value, acts[n], id);
    }
  }

  // ---- what callers see ----

  /** The state reached by a run that is orderly for the job. */
  ghost predicate Reached(acts: seq<Action>, s: System, id: JobId) {
    Orderly(acts, id) && Exec(Init(), acts) == Some(s)
  }

  /** While a persisted job runs, its rows equal memory except at the item just written, where the
      row already holds the outcome and memory still says pending. */
  lemma MemoryBehindByOne(acts: seq<Action>, s: System, r: RunnerId)
    requires r in s.runners && s.runners[r].job.id in s.db.jobs && Reached(acts, s, s.runners[r].job.id)
    ensures var p := s.runners[r];
      && p.job.id in s.db.messages
      && |s.db.messages[p.job.id]| == |p.job.results|
      && forall i :: 0 <= i < |p.job.results| ==>
           var row := s.db.messages[p.job.id][i].result;
           if p.phase.Written? && p.items != [] && i == p.items[0].idx
           then row == p.phase.res && !row.status.Pending? && p.job.results[i].status.Pending?
           else row == p.job.results[i]
  {
    var p := s.runners[r];
    RunAgrees(acts, p.job.id);
    RunnerOfJobAgrees(s, p.job.id, r);
    assert p.items != [] ==> ItemOk(p.job, p.items[0]);
    assert forall i :: 0 <= i < |p.job.results| ==>
      Results(s.db.messages[p.job.id])[i] == s.db.messages[p.job.id][i].result;
  }

  /** Outside the write and finish windows the tables read back exactly as memory. */
  lemma TablesReadAsMemory(db: Tables, p: Runner)
    requires RunnerAgrees(db, p) && p.job.id in db.jobs
    requires p.phase.Idle? || p.phase.Checked? || p.phase.InFlight? || p.phase.Done?
    ensures LoadJob(db, p.job.id) == Some(p.job)
  {
  }

  /** Dropping a finished job from memory is unobservable exactly when finish's table write has landed. */
  lemma EvictionUnobservableExactly(acts: seq<Action>, s: System, id: JobId, now: int)
    requires Reached(acts, s, id) && id in s.registry && s.registry[id] in s.runners && id in s.db.jobs
    requires Evictable(s.runners[s.registry[id]].job, now)
    ensures id !in Evict(s, now).registry
    ensures JobView(Evict(s, now), id) == JobView(s, id) <==> s.runners[s.registry[id]].phase.Done?
  {
    RunAgrees(acts, id);
    var p := s.runners[s.registry[id]];
    RunnerOfJobAgrees(s, id, s.registry[id]);
    if p.phase.Done? {
      TablesReadAsMemory(s.db, p);
    }
  }
}
