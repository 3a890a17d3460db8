/** Jobs come to an end: in every run whatsoever, recorded outcomes use up the pending rows, and each
    process lifetime that records anything uses up at least one. */
module BulkProgress {
  import opened Options
  import opened BulkTables
  import opened BulkSteps
  import opened BulkJobs
  import opened BulkResume
  import opened BulkLaw
  import opened BulkTheorems

  function PendingCount(db: Tables, id: JobId): nat {
    if id in db.messages then CountStatus(Results(db.messages[id]), Pending) else 0
  }

  /** The action records an outcome for job id in a row that is still pending. */
  ghost predicate SettlesRow(s: System, a: Action, id: JobId) {
    RecordsRow(s, a, id) && s.runners[a.runner].items != [] && PendingRow(s.db, id, s.runners[a.runner].items[0].idx)
  }

  lemma RowsElsewhere(s: System, a: Action, id: JobId)
    requires Base(s) && Step(s, a).Some? && id in s.db.messages && !RecordsRow(s, a, id)
    ensures var db := Step(s, a).value.db; id in db.messages && db.messages[id] == s.db.messages[id]
  {
    if a.Submit? {
      SubmitAddsRows(s, a, id);
    } else if !a.WriteRow? {
      MessagesKept(s, a);
    }
  }

  lemma ResultsUpdated(rows: seq<MsgRow>, idx: nat, row: MsgRow)
    requires idx < |rows|
    ensures Results(rows[idx := row]) == Results(rows)[idx := row.result]
  {
    assert |Results(rows[idx := row])| == |rows|;
  }

  lemma RewrittenCount(rows: seq<MsgRow>, idx: nat, res: BulkResult)
    requires idx < |rows| && !res.status.Pending?
    ensures CountStatus(Results(Rewritten(rows, idx, res)), Pending) ==
      CountStatus(Results(rows), Pending) - One(rows[idx].result.status.Pending?)
  {
    var row := Rewritten(rows, idx, res)[idx];
    ResultsUpdated(rows, idx, row);
    CountUpdate(Results(rows), idx, row.result, Pending);
    assert Results(rows)[idx].status == rows[idx].result.status;
  }

  /** In every run, recording an outcome in a pending row removes exactly that one; nothing else changes
      the number of pending rows. */
  lemma PendingMoves(s: System, a: Action, id: JobId)
    requires Remembered(s, id) && Step(s, a).Some? && id in s.db.messages
    ensures var db := Step(s, a).value.db;
      && id in db.messages && |db.messages[id]| == |s.db.messages[id]|
      && PendingCount(db, id) == PendingCount(s.db, id) - One(SettlesRow(s, a, id))
  {
    if RecordsRow(s, a, id) {
      WriteView(s, a, id);
      var v := ViewOf(s, id);
      assert MemberCovers(v, v.team[a.runner]);
      var idx := s.runners[a.runner].items[0].idx;
      if idx < |s.db.messages[id]| {
        RewrittenCount(s.db.messages[id], idx, s.runners[a.runner].phase.res);
      }
      assert ViewOf(Step(s, a).value, id).rows.Some?;
    } else {
      RowsElsewhere(s, a, id);
    }
  }

  /** When the job's rows are read safely, every recorded outcome removes a pending row. */
  lemma PendingShrinks(s: System, a: Action, id: JobId)
    requires Inv(s, id) && Remembered(s, id) && Step(s, a).Some? && id in s.db.messages
    ensures PendingCount(Step(s, a).value.db, id) == PendingCount(s.db, id) - One(RecordsRow(s, a, id))
  {
    PendingMoves(s, a, id);
    if RecordsRow(s, a, id) {
      WritesPending(s, a, id);
    }
  }

  lemma SettledStep(s: System, a: Action, id: JobId, idx: nat)
    requires Remembered(s, id) && Step(s, a).Some? && SettledRow(s.db, id, idx)
    ensures SettledRow(Step(s, a).value.db, id, idx)
  {
    if RecordsRow(s, a, id) {
      WriteView(s, a, id);
      var v, w := ViewOf(s, id), ViewOf(Step(s, a).value, id);
      assert MemberCovers(v, v.team[a.runner]);
      assert w.rows == Some(Rewritten(v.rows.value, s.runners[a.runner].items[0].idx, s.runners[a.runner].phase.res));
    } else {
      RowsElsewhere(s, a, id);
    }
  }

  lemma {:induction false} SettledForward(s: System, more: seq<Action>, id: JobId, idx: nat)
    requires Remembered(s, id) && Exec(s, more).Some? && SettledRow(s.db, id, idx)
    ensures Remembered(Exec(s, more).value, id) && SettledRow(Exec(s, more).value.db, id, idx)
  {
    if more != [] {
      var n := |more| - 1;
      SettledForward(s, more[..n], id, idx);
      StepRemembers(Exec(s, more[..n]).value, more[n], id);
      SettledStep(Exec(s, more[..n]).value, more[n], id, idx);
    }
  }

  /** In every run, even when two runners write the same row, a settled row never becomes pending again. */
  lemma SettledStays(acts: seq<Action>, more: seq<Action>, id: JobId, idx: nat)
    requires Exec(Init(), acts).Some? && Exec(Init(), acts + more).Some? && SettledRow(End(acts).db, id, idx)
    ensures SettledRow(End(acts + more).db, id, idx)
  {
    RunRemembers(acts, id);
    ExecConcat(Init(), acts, more);
    SettledForward(End(acts), more, id, idx);
  }

  // ---- lists that are still fresh ----

  /** Every item's row is pending, if the job is persisted. */
  ghost predicate AllPending(v: JobState, items: seq<BulkItem>) {
    v.rows.Some? ==> forall k :: 0 <= k < |items| ==>
      items[k].idx < |v.rows.value| && v.rows.value[items[k].idx].result.status.Pending?
  }

  /** Nobody has an item whose row is settled. */
  ghost predicate Fresh(v: JobState) {
    && (forall r :: r in v.team ==> AllPending(v, Work(v.team[r])))
    && (v.entry.Some? ==> AllPending(v, v.entry.value.pending))
  }

  lemma WorkKept(s: System, a: Action)
    requires Step(s, a).Some? && OfRunner(a) && !a.WriteRow?
    ensures a.runner in s.runners && a.runner in Step(s, a).value.runners
    ensures var p, q := s.runners[a.runner], Step(s, a).value.runners[a.runner];
      Work(q) == Work(p) || Work(q) == []
  {
  }

  lemma TeamFresh(v: JobState, r: RunnerId, q: Runner)
    requires Fresh(v) && r in v.team && (Work(q) == Work(v.team[r]) || Work(q) == [])
    ensures Fresh(v.(team := v.team[r := q]))
  {
    var w := v.(team := v.team[r := q]);
    assert AllPending(v, Work(v.team[r])) && AllPending(w, Work(q));
  }

  lemma MoveFresh(s: System, a: Action, id: JobId)
    requires Fresh(ViewOf(s, id)) && Step(s, a).Some? && Concerns(s, a, id)
    requires OfRunner(a) && !a.Attempt? && !a.WriteRow?
    ensures Fresh(ViewOf(Step(s, a).value, id))
  {
    MoveView(s, a, id);
    WorkKept(s, a);
    TeamFresh(ViewOf(s, id), a.runner, Step(s, a).value.runners[a.runner]);
  }

  lemma AttemptFresh(s: System, a: Action, id: JobId)
    requires Fresh(ViewOf(s, id)) && Step(s, a).Some? && Concerns(s, a, id) && a.Attempt?
    ensures Fresh(ViewOf(Step(s, a).value, id))
  {
    AttemptView(s, a, id);
  }

  lemma WriteFresh(s: System, a: Action, id: JobId)
    requires Fresh(ViewOf(s, id)) && Step(s, a).Some? && Concerns(s, a, id) && a.WriteRow? && !RecordsRow(s, a, id)
    ensures Fresh(ViewOf(Step(s, a).value, id))
  {
    WriteView(s, a, id);
  }

  lemma SubmitFresh(s: System, a: Action)
    requires Base(s) && a.Submit? && Step(s, a).Some?
    ensures Fresh(ViewOf(Step(s, a).value, a.id))
  {
    SubmitView(s, a);
  }

  lemma ReadFresh(s: System, id: JobId)
    requires Fresh(ViewOf(s, id)) && Step(s, ReadRows(id)).Some?
    ensures Fresh(ViewOf(Step(s, ReadRows(id)).value, id))
  {
    ReadView(s, id);
  }

  lemma StartFresh(s: System, a: Action)
    requires a.ResumeStart? && Base(s) && Fresh(ViewOf(s, a.id)) && Step(s, a).Some?
    ensures Fresh(ViewOf(Step(s, a).value, a.id))
  {
    StartView(s, a);
  }

  lemma ConcernFresh(s: System, a: Action, id: JobId)
    requires Base(s) && Fresh(ViewOf(s, id)) && Step(s, a).Some? && Concerns(s, a, id)
    requires !RecordsRow(s, a, id) && !a.Crash?
    ensures Fresh(ViewOf(Step(s, a).value, id))
  {
    if a.Attempt? {
      AttemptFresh(s, a, id);
    } else if a.WriteRow? {
      WriteFresh(s, a, id);
    } else if OfRunner(a) {
      MoveFresh(s, a, id);
    } else if a.Submit? {
      SubmitFresh(s, a);
    } else if a.ReadRows? {
      ReadFresh(s, id);
    } else {
      StartFresh(s, a);
    }
  }

  /** Until an outcome is recorded for the job, its lists stay fresh; after a crash they are. */
  lemma StepFresh(s: System, a: Action, id: JobId)
    requires Base(s) && Step(s, a).Some? && !RecordsRow(s, a, id) && (!a.Crash? ==> Fresh(ViewOf(s, id)))
    ensures Fresh(ViewOf(Step(s, a).value, id))
  {
    if a.Crash? {
      CrashView(s, id);
    } else if Concerns(s, a, id) {
      ConcernFresh(s, a, id);
    } else {
      Elsewhere(s, a, id);
    }
  }

  lemma FreshRecordSettles(s: System, a: Action, id: JobId)
    requires Fresh(ViewOf(s, id)) && Step(s, a).Some? && RecordsRow(s, a, id)
    ensures SettlesRow(s, a, id)
  {
    WriteView(s, a, id);
    assert Work(s.runners[a.runner])[0] == s.runners[a.runner].items[0];
  }

  // ---- lifetimes ----

  /** Lifetimes so far that recorded something for the job, and whether the current one did. */
  datatype Lifetimes = Lifetimes(productive: nat, current: bool)

  ghost function CountLifetimes(acts: seq<Action>, id: JobId): Lifetimes {
    if acts == [] then Lifetimes(0, false) else
      var n := |acts| - 1;
      var before := CountLifetimes(acts[..n], id);
      if acts[n].Crash? then Lifetimes(before.productive, false)
      else if Exec(Init(), acts[..n]).Some? && RecordsRow(End(acts[..n]), acts[n], id) then
        Lifetimes(if before.current then before.productive else before.productive + 1, true)
      else before
  }

  function RowCount(db: Tables, id: JobId): nat {
    if id in db.messages then |db.messages[id]| else 0
  }

  /** What one step does to the account of productive lifetimes. */
  lemma StepProgress(s: System, a: Action, id: JobId, productive: nat, current: bool)
    requires Remembered(s, id) && Step(s, a).Some? && (!current ==> Fresh(ViewOf(s, id)))
    requires productive + PendingCount(s.db, id) <= RowCount(s.db, id)
    ensures var db := Step(s, a).value.db; var more := if RecordsRow(s, a, id) && !current then 1 else 0;
      productive + more + PendingCount(db, id) <= RowCount(db, id)
    ensures !RecordsRow(s, a, id) && (a.Crash? || !current) ==> Fresh(ViewOf(Step(s, a).value, id))
  {
    if id in s.db.messages {
      PendingMoves(s, a, id);
    }
    if RecordsRow(s, a, id) {
      if !current {
        FreshRecordSettles(s, a, id);
      }
    } else if a.Crash? || !current {
      StepFresh(s, a, id);
    }
  }

  lemma {:induction false} ProgressKept(acts: seq<Action>, id: JobId)
    requires Exec(Init(), acts).Some?
    ensures CountLifetimes(acts, id).productive + PendingCount(End(acts).db, id) <= RowCount(End(acts).db, id)
    ensures !CountLifetimes(acts, id).current ==> Fresh(ViewOf(End(acts), id))
  {
    if acts != [] {
      var n := |acts| - 1;
      var before := CountLifetimes(acts[..n], id);
      ProgressKept(acts[..n], id);
      RunRemembers(acts[..n], id);
      StepProgress(End(acts[..n]), acts[n], id, before.productive, before.current);
    }
  }

  /** In every run, a job has at most as many lifetimes that record anything for it as it has recipients
      that are no longer pending. */
  lemma ProductiveLifetimesBounded(acts: seq<Action>, id: JobId)
    requires Exec(Init(), acts).Some?
    ensures var s := End(acts);
      CountLifetimes(acts, id).productive + PendingCount(s.db, id) <=
        if id in s.db.messages then |s.db.messages[id]| else 0
  {
    ProgressKept(acts, id);
  }
}
