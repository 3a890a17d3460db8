/** One job as the system holds it: its rows, its tallies, the runners that own an object of it and its
    entry on the recovery list. Every step changes that state in one of a few small ways. */
module BulkJobs {
  import opened Options
  import opened BulkTables
  import opened BulkSteps

  type Runners = map<RunnerId, Runner>

  datatype JobState = JobState(
    id: JobId, rows: Option<seq<MsgRow>>, tallies: seq<Tally>, team: Runners, entry: Option<Resumable>)

  function Team(runners: Runners, id: JobId): Runners {
    map r | r in runners && runners[r].job.id == id :: runners[r]
  }

  function ViewOf(s: System, id: JobId): JobState {
    JobState(
      id,
      if id in s.db.messages then Some(s.db.messages[id]) else None,
      if id in s.audit then s.audit[id] else [],
      Team(s.runners, id),
      if id in s.loaded then Some(s.loaded[id]) else None)
  }

  ghost predicate TablesKnown(db: Tables, audit: Audit) {
    && db.jobs.Keys == db.messages.Keys
    && (forall id :: id in db.messages ==> id in audit && |audit[id]| == |db.messages[id]|)
  }

  ghost predicate RunnersKnown(runners: Runners, audit: Audit) {
    forall r :: r in runners ==> runners[r].job.id in audit
  }

  ghost predicate LoadedKnown(loaded: map<JobId, Resumable>, db: Tables) {
    forall id :: id in loaded ==> loaded[id].job.id == id && id in db.messages
  }

  /** Rows, runners and recovery list speak of submitted jobs only. */
  ghost predicate Base(s: System) {
    && TablesKnown(s.db, s.audit)
    && RunnersKnown(s.runners, s.audit)
    && LoadedKnown(s.loaded, s.db)
    && s.heads.Keys <= s.db.jobs.Keys
    && (!s.recovered ==> s.heads == map[] && s.loaded == map[])
  }

  // ---- Base is kept by every step ----

  /** Steps of one runner that exists already. */
  ghost predicate OfRunner(a: Action) {
    a.Register? || a.Check? || a.Attempt? || a.WriteRow? || a.Settle? || a.Finish? || a.FinishWrite? || a.StartWrite?
  }

  /** Besides Submit, no step adds or removes a row or a recipient. */
  ghost predicate SameExtent(s: System, t: System) {
    && t.db.jobs.Keys == s.db.jobs.Keys && t.db.messages.Keys == s.db.messages.Keys
    && t.audit.Keys == s.audit.Keys
    && (forall id :: id in s.db.messages ==> |t.db.messages[id]| == |s.db.messages[id]|)
    && (forall id :: id in s.audit ==> |t.audit[id]| == |s.audit[id]|)
  }

  lemma RunnerStepExtent(s: System, a: Action)
    requires Step(s, a).Some? && OfRunner(a)
    ensures SameExtent(s, Step(s, a).value)
  {
  }

  lemma OtherStepExtent(s: System, a: Action)
    requires Step(s, a).Some? && !OfRunner(a) && !a.Submit?
    ensures SameExtent(s, Step(s, a).value)
  {
  }

  /** A step of a runner changes that runner only, and not its job's identity. */
  lemma OneMoves(s: System, a: Action)
    requires Step(s, a).Some? && OfRunner(a)
    ensures a.runner in s.runners
    ensures var t := Step(s, a).value;
      && a.runner in t.runners && t.runners == s.runners[a.runner := t.runners[a.runner]]
      && t.runners[a.runner].job.id == s.runners[a.runner].job.id
      && t.loaded == s.loaded && t.heads == s.heads && t.recovered == s.recovered && t.quit == s.quit
  {
  }

  lemma SubmitBase(s: System, a: Action)
    requires Base(s) && Step(s, a).Some? && a.Submit?
    ensures Base(Step(s, a).value)
  {
  }

  lemma OtherStepBase(s: System, a: Action)
    requires Base(s) && Step(s, a).Some? && !OfRunner(a) && !a.Submit?
    ensures Base(Step(s, a).value)
  {
    OtherStepExtent(s, a);
  }

  lemma BaseKeeps(s: System, a: Action)
    requires Base(s) && Step(s, a).Some?
    ensures Base(Step(s, a).value)
  {
    if a.Submit? {
      SubmitBase(s, a);
    } else if OfRunner(a) {
      RunnerStepExtent(s, a);
      OneMoves(s, a);
    } else {
      OtherStepBase(s, a);
    }
  }

  // ---- what a step does to one job ----

  lemma TeamPut(runners: Runners, r: RunnerId, q: Runner, id: JobId)
    requires r in runners ==> runners[r].job.id == q.job.id
    ensures Team(runners[r := q], id) ==
      if q.job.id == id then Team(runners, id)[r := q] else Team(runners, id)
  {
  }

  /** A window of a job is a window of its team. */
  lemma TeamWindows(runners: Runners, id: JobId, idx: nat)
    ensures InFlightAt(Team(runners, id), id, idx) == InFlightAt(runners, id, idx)
  {
    var team := Team(runners, id);
    if InFlightAt(runners, id, idx) {
      var r :| r in runners && InFlightBy(runners[r], id, idx);
      assert r in team && InFlightBy(team[r], id, idx);
    }
    if InFlightAt(team, id, idx) {
      var r :| r in team && InFlightBy(team[r], id, idx);
      assert r in runners && InFlightBy(runners[r], id, idx);
    }
  }

  /** The job whose rows, tallies, team or entry the action can change; Crash concerns every job. */
  ghost predicate Concerns(s: System, a: Action, id: JobId) {
    match a
    case Submit(_, j, _, _, _, _) => j == id
    case ReadRows(j) => j == id
    case ResumeStart(_, j) => j == id
    case Crash => true
    case _ => OfRunner(a) && a.runner in s.runners && s.runners[a.runner].job.id == id
  }

  /** The job state is as before, except that its entry may have left the recovery list. */
  ghost predicate Unmoved(v: JobState, w: JobState) {
    w == v || w == v.(entry := None)
  }

  /** The action records an outcome in the rows of job id. */
  ghost predicate RecordsRow(s: System, a: Action, id: JobId) {
    a.WriteRow? && a.ok && Concerns(s, a, id) && id in s.db.messages
  }

  lemma RunnerElsewhere(s: System, a: Action, id: JobId)
    requires Step(s, a).Some? && OfRunner(a) && !Concerns(s, a, id)
    ensures ViewOf(Step(s, a).value, id) == ViewOf(s, id)
  {
    OneMoves(s, a);
    TeamPut(s.runners, a.runner, Step(s, a).value.runners[a.runner], id);
  }

  /** A new runner, or a resumed one, of another job. */
  lemma JoinElsewhere(s: System, a: Action, id: JobId)
    requires Base(s) && Step(s, a).Some? && (a.Submit? || a.ResumeStart?) && !Concerns(s, a, id)
    ensures ViewOf(Step(s, a).value, id) == ViewOf(s, id)
  {
    TeamPut(s.runners, a.runner, Step(s, a).value.runners[a.runner], id);
  }

  lemma TableElsewhere(s: System, a: Action, id: JobId)
    requires Step(s, a).Some? && !OfRunner(a) && !a.Submit? && !a.ResumeStart? && !Concerns(s, a, id)
    ensures Unmoved(ViewOf(s, id), ViewOf(Step(s, a).value, id))
  {
  }

  /** An action that does not concern a job leaves it alone. */
  lemma Elsewhere(s: System, a: Action, id: JobId)
    requires Base(s) && Step(s, a).Some? && !Concerns(s, a, id)
    ensures Unmoved(ViewOf(s, id), ViewOf(Step(s, a).value, id))
  {
    if OfRunner(a) {
      RunnerElsewhere(s, a, id);
    } else if a.Submit? || a.ResumeStart? {
      JoinElsewhere(s, a, id);
    } else {
      TableElsewhere(s, a, id);
    }
  }

  /** Steps of a runner that touch neither rows nor tallies. */
  lemma MoveView(s: System, a: Action, id: JobId)
    requires Step(s, a).Some? && OfRunner(a) && !a.Attempt? && !a.WriteRow? && Concerns(s, a, id)
    ensures var v := ViewOf(s, id); var t := Step(s, a).value;
      && a.runner in v.team && v.team[a.runner] == s.runners[a.runner] && a.runner in t.runners
      && ViewOf(t, id) == v.(team := v.team[a.runner := t.runners[a.runner]])
  {
    OneMoves(s, a);
    TeamPut(s.runners, a.runner, Step(s, a).value.runners[a.runner], id);
  }

  /** One recipient's tally is credited. */
  function Credited(tallies: seq<Tally>, idx: nat, e: Entry): seq<Tally> {
    if idx < |tallies| then tallies[idx := Credit(tallies[idx], e)] else tallies
  }

  lemma AttemptView(s: System, a: Action, id: JobId)
    requires Step(s, a).Some? && a.Attempt? && Concerns(s, a, id)
    ensures var v := ViewOf(s, id); var p := s.runners[a.runner];
      && a.runner in v.team && v.team[a.runner] == p && p.items != []
      && ViewOf(Step(s, a).value, id) == v.(
           team := v.team[a.runner := p.(phase := InFlight(ResultOf(p.items[0], a.outcome)))],
           tallies := Credited(v.tallies, p.items[0].idx, if a.outcome.NoSession? then Refused else Sends))
  {
    OneMoves(s, a);
    TeamPut(s.runners, a.runner, Step(s, a).value.runners[a.runner], id);
  }

  /** The rows after one row was written; the address column stays. */
  function Rewritten(rows: seq<MsgRow>, idx: nat, res: BulkResult): seq<MsgRow> {
    if idx < |rows| then
      rows[idx := rows[idx].(result := rows[idx].result.(
        status := res.status, messageId := res.messageId, error := res.error))]
    else
      rows
  }

  lemma WriteView(s: System, a: Action, id: JobId)
    requires Step(s, a).Some? && a.WriteRow? && Concerns(s, a, id)
    ensures var v := ViewOf(s, id); var p := s.runners[a.runner];
      && a.runner in v.team && v.team[a.runner] == p && p.items != [] && p.phase.InFlight?
      && ViewOf(Step(s, a).value, id) == v.(
           team := v.team[a.runner := p.(phase := Written(p.phase.res))],
           tallies := Credited(v.tallies, p.items[0].idx, if a.ok then Recorded else Lost),
           rows := if a.ok && v.rows.Some? then Some(Rewritten(v.rows.value, p.items[0].idx, p.phase.res))
                   else v.rows)
  {
    OneMoves(s, a);
    TeamPut(s.runners, a.runner, Step(s, a).value.runners[a.runner], id);
  }

  lemma NobodyKnows(s: System, id: JobId)
    requires Base(s) && id !in s.audit
    ensures ViewOf(s, id) == JobState(id, None, [], map[], None)
  {
  }

  lemma SubmitView(s: System, a: Action)
    requires Base(s) && Step(s, a).Some? && a.Submit?
    ensures ViewOf(Step(s, a).value, a.id) == JobState(
      a.id, if a.ok then Some(FreshRows(a.msgs)) else None, seq(|a.msgs|, _ => Tally(0, 0, 0, 0, 0)),
      map[a.runner := Runner(FreshJob(a.id, a.session, a.msgs, a.now), FreshItems(a.msgs), Unregistered)], None)
  {
    NobodyKnows(s, a.id);
    TeamPut(s.runners, a.runner, Step(s, a).value.runners[a.runner], a.id);
  }

  lemma ReadView(s: System, id: JobId)
    requires Step(s, ReadRows(id)).Some?
    ensures var v := ViewOf(s, id);
      && id in s.heads && v.rows.Some?
      && ViewOf(Step(s, ReadRows(id)).value, id) ==
           if s.quit then v else v.(entry := Some(Resume(id, s.heads[id], v.rows.value)))
  {
  }

  lemma StartView(s: System, a: Action)
    requires Base(s) && Step(s, a).Some? && a.ResumeStart?
    ensures var v := ViewOf(s, a.id);
      && v.entry.Some? && v.entry.value.job.id == a.id && a.runner !in v.team
      && ViewOf(Step(s, a).value, a.id) == v.(
           team := v.team[a.runner := Runner(v.entry.value.job, v.entry.value.pending, Starting)], entry := None)
  {
    TeamPut(s.runners, a.runner, Step(s, a).value.runners[a.runner], a.id);
  }

  /** The tallies after a crash: every open window's outcome is lost. */
  ghost function AfterLoss(v: JobState): seq<Tally> {
    seq(|v.tallies|, i requires 0 <= i < |v.tallies| =>
      if InFlightAt(v.team, v.id, i) then v.tallies[i].(lost := v.tallies[i].lost + 1) else v.tallies[i])
  }

  lemma CrashView(s: System, id: JobId)
    ensures var v := ViewOf(s, id);
      ViewOf(AfterCrash(s), id) == v.(tallies := AfterLoss(v), team := map[], entry := None)
  {
    var v, w := ViewOf(s, id), ViewOf(AfterCrash(s), id);
    forall i: nat | i < |v.tallies| ensures w.tallies[i] == AfterLoss(v)[i] {
      TeamWindows(s.runners, id, i);
    }
  }
}
