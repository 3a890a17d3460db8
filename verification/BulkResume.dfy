/** Nobody is forgotten. In every run whatsoever, with crashes, failed writes and reads of the tables at
    any time, a recipient whose row is still pending stays on some list of recipients to send, unless a
    row write for it failed. */
module BulkResume {
  import opened Options
  import opened BulkTables
  import opened BulkSteps
  import opened BulkJobs

  ghost predicate PendingRow(db: Tables, id: JobId, idx: nat) {
    id in db.messages && idx < |db.messages[id]| && db.messages[id][idx].result.status.Pending?
  }

  /** The recipient's row is pending, and no write of it ever failed. */
  ghost predicate Waiting(v: JobState, idx: nat) {
    && v.rows.Some? && idx < |v.rows.value| && v.rows.value[idx].result.status.Pending?
    && idx < |v.tallies| && v.tallies[idx].failed == 0
  }

  /** Every waiting recipient is on the list. */
  ghost predicate Covered(v: JobState, items: seq<BulkItem>) {
    forall idx: nat :: Waiting(v, idx) ==> Listed(items, idx)
  }

  ghost predicate MemberCovers(v: JobState, p: Runner) {
    && (p.phase.InFlight? ==> !p.phase.res.status.Pending?)
    && (!p.phase.Finishing? && !p.phase.Done? ==> p.job.status.Running? && Covered(v, Work(p)))
    && (p.phase.Finishing? && p.job.status.Completed? ==> Covered(v, []))
  }

  ghost predicate TeamCovers(v: JobState) {
    forall r :: r in v.team ==> MemberCovers(v, v.team[r])
  }

  ghost predicate EntryCovers(v: JobState) {
    v.entry.Some? ==> v.entry.value.job.status.Running? && Covered(v, v.entry.value.pending)
  }

  /** A row has an outcome exactly when one was recorded. */
  ghost predicate RecordedRows(v: JobState) {
    v.rows.Some? ==>
      && |v.rows.value| == |v.tallies|
      && forall idx: nat :: idx < |v.tallies| ==>
           (v.tallies[idx].written == 0 <==> v.rows.value[idx].result.status.Pending?)
  }

  ghost predicate Covers(v: JobState) {
    TeamCovers(v) && EntryCovers(v) && RecordedRows(v)
  }

  ghost predicate IsCompleted(db: Tables, id: JobId) {
    id in db.jobs && db.jobs[id].status.Completed?
  }

  /** What every run keeps about job id. */
  ghost predicate Remembered(s: System, id: JobId) {
    && Base(s)
    && Covers(ViewOf(s, id))
    && (IsCompleted(s.db, id) ==> Covered(ViewOf(s, id), []))
  }

  // ---- waiting rows only become fewer ----

  ghost predicate WaitLess(v: JobState, w: JobState) {
    forall idx: nat :: Waiting(w, idx) ==> Waiting(v, idx)
  }

  lemma CoverKept(v: JobState, w: JobState, items: seq<BulkItem>)
    requires WaitLess(v, w) && Covered(v, items)
    ensures Covered(w, items)
  {
  }

  lemma MemberKept(v: JobState, w: JobState, p: Runner)
    requires WaitLess(v, w) && MemberCovers(v, p)
    ensures MemberCovers(w, p)
  {
  }

  /** Everything but the changed member stays covered. */
  lemma OthersKept(v: JobState, w: JobState, r: RunnerId)
    requires Covers(v) && WaitLess(v, w) && RecordedRows(w)
    requires r in w.team && w.team == v.team[r := w.team[r]] && MemberCovers(w, w.team[r])
    requires w.entry == v.entry || w.entry.None?
    ensures Covers(w)
  {
    forall q | q in w.team && q != r ensures MemberCovers(w, w.team[q]) {
      MemberKept(v, w, v.team[q]);
    }
  }

  lemma MoveMember(s: System, a: Action, v: JobState)
    requires Step(s, a).Some? && OfRunner(a) && !a.Attempt? && !a.WriteRow?
    requires a.runner in s.runners && MemberCovers(v, s.runners[a.runner])
    ensures a.runner in Step(s, a).value.runners && MemberCovers(v, Step(s, a).value.runners[a.runner])
  {
  }

  lemma TeamMoved(v: JobState, w: JobState, r: RunnerId)
    requires Covers(v) && r in w.team && w == v.(team := v.team[r := w.team[r]]) && MemberCovers(v, w.team[r])
    ensures Covers(w) && WaitLess(v, w)
  {
    MemberKept(v, w, w.team[r]);
    OthersKept(v, w, r);
  }

  lemma MoveCovers(s: System, a: Action, id: JobId)
    requires Remembered(s, id) && Step(s, a).Some? && Concerns(s, a, id)
    requires OfRunner(a) && !a.Attempt? && !a.WriteRow?
    ensures Covers(ViewOf(Step(s, a).value, id)) && WaitLess(ViewOf(s, id), ViewOf(Step(s, a).value, id))
  {
    var t := Step(s, a).value;
    var v, w := ViewOf(s, id), ViewOf(t, id);
    MoveView(s, a, id);
    assert MemberCovers(v, v.team[a.runner]);
    MoveMember(s, a, v);
    TeamMoved(v, w, a.runner);
  }

  lemma AttemptCovers(s: System, a: Action, id: JobId)
    requires Remembered(s, id) && Step(s, a).Some? && Concerns(s, a, id) && a.Attempt?
    ensures Covers(ViewOf(Step(s, a).value, id)) && WaitLess(ViewOf(s, id), ViewOf(Step(s, a).value, id))
  {
    AttemptView(s, a, id);
    var v, w := ViewOf(s, id), ViewOf(Step(s, a).value, id);
    MemberKept(v, w, v.team[a.runner]);
    OthersKept(v, w, a.runner);
  }

  /** A list that covers v covers w without its head, when the head's row no longer waits. */
  lemma HeadDone(v: JobState, w: JobState, items: seq<BulkItem>)
    requires WaitLess(v, w) && Covered(v, items) && items != [] && !Waiting(w, items[0].idx)
    ensures Covered(w, items[1..])
  {
    forall idx: nat | Waiting(w, idx) ensures Listed(items[1..], idx) {
      assert Listed(items, idx);
      var k :| 0 <= k < |items| && items[k].idx == idx;
      assert items[1..][k - 1].idx == idx;
    }
  }

  /** The row just written waits no longer: it holds an outcome, or the failure is on record. */
  lemma WriteWaits(v: JobState, w: JobState, idx: nat, res: BulkResult, ok: bool)
    requires RecordedRows(v) && !res.status.Pending?
    requires w.tallies == Credited(v.tallies, idx, if ok then Recorded else Lost)
    requires w.rows == if ok && v.rows.Some? then Some(Rewritten(v.rows.value, idx, res)) else v.rows
    ensures WaitLess(v, w) && !Waiting(w, idx) && RecordedRows(w)
  {
  }

  lemma WriteCovers(s: System, a: Action, id: JobId)
    requires Remembered(s, id) && Step(s, a).Some? && Concerns(s, a, id) && a.WriteRow?
    ensures Covers(ViewOf(Step(s, a).value, id)) && WaitLess(ViewOf(s, id), ViewOf(Step(s, a).value, id))
  {
    WriteView(s, a, id);
    var v, w := ViewOf(s, id), ViewOf(Step(s, a).value, id);
    var p := v.team[a.runner];
    assert MemberCovers(v, p);
    WriteWaits(v, w, p.items[0].idx, p.phase.res, a.ok);
    HeadDone(v, w, p.items);
    OthersKept(v, w, a.runner);
  }

  lemma SubmitCovers(s: System, a: Action)
    requires a.Submit? && Remembered(s, a.id) && Step(s, a).Some?
    ensures Covers(ViewOf(Step(s, a).value, a.id))
  {
    SubmitView(s, a);
    var w := ViewOf(Step(s, a).value, a.id);
    var items := FreshItems(a.msgs);
    forall idx: nat | Waiting(w, idx) ensures Listed(items, idx) {
      assert items[idx].idx == idx;
    }
  }

  /** A list gathered from the rows has every pending row on it. */
  lemma ScanCovers(v: JobState, row: JobRow)
    requires v.rows.Some?
    ensures Covered(v, Resume(v.id, row, v.rows.value).pending)
  {
    forall idx: nat | Waiting(v, idx) ensures Listed(PendingItems(v.rows.value), idx) {
      PendingListed(v.rows.value, idx);
    }
  }

  lemma ReadCovers(s: System, id: JobId)
    requires Remembered(s, id) && Step(s, ReadRows(id)).Some?
    ensures Covers(ViewOf(Step(s, ReadRows(id)).value, id))
    ensures WaitLess(ViewOf(s, id), ViewOf(Step(s, ReadRows(id)).value, id))
  {
    ReadView(s, id);
    ScanCovers(ViewOf(s, id), s.heads[id]);
  }

  lemma StartCovers(s: System, a: Action)
    requires a.ResumeStart? && Remembered(s, a.id) && Step(s, a).Some?
    ensures Covers(ViewOf(Step(s, a).value, a.id))
    ensures WaitLess(ViewOf(s, a.id), ViewOf(Step(s, a).value, a.id))
  {
    StartView(s, a);
    OthersKept(ViewOf(s, a.id), ViewOf(Step(s, a).value, a.id), a.runner);
  }

  lemma CrashCovers(s: System, id: JobId)
    requires Remembered(s, id)
    ensures Covers(ViewOf(AfterCrash(s), id)) && WaitLess(ViewOf(s, id), ViewOf(AfterCrash(s), id))
  {
    CrashView(s, id);
  }

  lemma ElsewhereCovers(v: JobState, w: JobState)
    requires Covers(v) && Unmoved(v, w)
    ensures Covers(w) && WaitLess(v, w)
  {
    forall r | r in w.team ensures MemberCovers(w, w.team[r]) {
      MemberKept(v, w, v.team[r]);
    }
  }

  lemma RunnerCovers(s: System, a: Action, id: JobId)
    requires Remembered(s, id) && Step(s, a).Some? && Concerns(s, a, id) && OfRunner(a)
    ensures Covers(ViewOf(Step(s, a).value, id)) && WaitLess(ViewOf(s, id), ViewOf(Step(s, a).value, id))
  {
    if a.Attempt? {
      AttemptCovers(s, a, id);
    } else if a.WriteRow? {
      WriteCovers(s, a, id);
    } else {
      MoveCovers(s, a, id);
    }
  }

  lemma ConcernCovers(s: System, a: Action, id: JobId)
    requires Remembered(s, id) && Step(s, a).Some? && Concerns(s, a, id)
    ensures Covers(ViewOf(Step(s, a).value, id))
    ensures a.Submit? || WaitLess(ViewOf(s, id), ViewOf(Step(s, a).value, id))
  {
    if OfRunner(a) {
      RunnerCovers(s, a, id);
    } else if a.Submit? {
      SubmitCovers(s, a);
    } else if a.ReadRows? {
      ReadCovers(s, id);
    } else if a.ResumeStart? {
      StartCovers(s, a);
    } else {
      CrashCovers(s, id);
    }
  }

  lemma ViewCovers(s: System, a: Action, id: JobId)
    requires Remembered(s, id) && Step(s, a).Some?
    ensures Covers(ViewOf(Step(s, a).value, id))
    ensures (a.Submit? && a.id == id) || WaitLess(ViewOf(s, id), ViewOf(Step(s, a).value, id))
  {
    if Concerns(s, a, id) {
      ConcernCovers(s, a, id);
    } else {
      Elsewhere(s, a, id);
      ElsewhereCovers(ViewOf(s, id), ViewOf(Step(s, a).value, id));
    }
  }

  // ---- only a job with nothing waiting is marked completed ----

  /** The only updates that mark a job row completed. */
  ghost predicate Completes(s: System, a: Action, id: JobId) {
    || (a.FinishWrite? && Concerns(s, a, id) && s.runners[a.runner].job.status.Completed?)
    || (a.ResumeFinal? && a.id == id)
  }

  lemma RunnerCompletes(s: System, a: Action, id: JobId)
    requires Remembered(s, id) && Step(s, a).Some? && OfRunner(a)
    requires IsCompleted(Step(s, a).value.db, id)
    ensures IsCompleted(s.db, id) || Completes(s, a, id)
  {
    if a.StartWrite? && s.runners[a.runner].job.id == id {
      assert MemberCovers(ViewOf(s, id), ViewOf(s, id).team[a.runner]);
    }
  }

  lemma OtherCompletes(s: System, a: Action, id: JobId)
    requires Base(s) && Step(s, a).Some? && !OfRunner(a)
    requires IsCompleted(Step(s, a).value.db, id)
    ensures IsCompleted(s.db, id) || Completes(s, a, id)
  {
  }

  lemma CompletesCovered(s: System, a: Action, id: JobId)
    requires Remembered(s, id) && Step(s, a).Some? && Completes(s, a, id)
    ensures Covered(ViewOf(s, id), [])
  {
    if a.FinishWrite? {
      assert MemberCovers(ViewOf(s, id), ViewOf(s, id).team[a.runner]);
    } else {
      assert ViewOf(s, id).entry == Some(s.loaded[id]);
    }
  }

  lemma FreshNotCompleted(s: System, a: Action)
    requires Base(s) && Step(s, a).Some? && a.Submit?
    ensures !IsCompleted(Step(s, a).value.db, a.id)
  {
  }

  lemma StepRemembers(s: System, a: Action, id: JobId)
    requires Remembered(s, id) && Step(s, a).Some?
    ensures Remembered(Step(s, a).value, id)
  {
    var t := Step(s, a).value;
    BaseKeeps(s, a);
    ViewCovers(s, a, id);
    if IsCompleted(t.db, id) {
      if a.Submit? && a.id == id {
        FreshNotCompleted(s, a);
      } else {
        if OfRunner(a) {
          RunnerCompletes(s, a, id);
        } else {
          OtherCompletes(s, a, id);
        }
        if !IsCompleted(s.db, id) {
          CompletesCovered(s, a, id);
        }
        CoverKept(ViewOf(s, id), ViewOf(t, id), []);
      }
    }
  }

  lemma {:induction false} RunRemembers(acts: seq<Action>, id: JobId)
    requires Exec(Init(), acts).Some?
    ensures Remembered(Exec(Init(), acts).value, id)
  {
    if acts != [] {
      var n := |acts| - 1;
      RunRemembers(acts[..n], id);
      StepRemembers(Exec(Init(), acts[..n]).value, acts[n], id);
    }
  }

  // ---- what that means ----

  /** The state a run from the empty installation ends in. */
  ghost function End(acts: seq<Action>): System
    requires Exec(Init(), acts).Some?
  {
    Exec(Init(), acts).value
  }

  /** Recovery selects the job and has the recipient on its list. */
  ghost predicate Resumed(db: Tables, id: JobId, idx: nat) {
    id in LoadResumable(db) && Listed(LoadResumable(db)[id].pending, idx)
  }

  /** A pending row is resumed exactly when its job is not marked completed; in every run, when the job
      is, a write of that row failed and none succeeded. */
  lemma PendingRows(acts: seq<Action>, id: JobId, idx: nat)
    requires Exec(Init(), acts).Some? && id in End(acts).db.messages && idx < |End(acts).db.messages[id]|
    ensures var s := End(acts);
      && id in s.db.jobs && id in s.audit && idx < |s.audit[id]|
      && (PendingRow(s.db, id, idx) <==> s.audit[id][idx].written == 0)
      && (Resumed(s.db, id, idx) <==> PendingRow(s.db, id, idx) && !IsCompleted(s.db, id))
      && (IsCompleted(s.db, id) ==>
           (PendingRow(s.db, id, idx) <==> s.audit[id][idx].written == 0 && s.audit[id][idx].failed > 0))
  {
    RunRemembers(acts, id);
    var s := End(acts);
    var v := ViewOf(s, id);
    if PendingRow(s.db, id, idx) {
      PendingListed(s.db.messages[id], idx);
    }
    assert Waiting(v, idx) && IsCompleted(s.db, id) ==> Listed([], idx);
  }

  /** No recipient is forgotten: with crashes anywhere and whatever writes of other rows did, a pending
      row no write of which failed has its job selected, with that recipient on the list to send. */
  lemma NoneForgotten(acts: seq<Action>, id: JobId, idx: nat)
    requires Exec(Init(), acts).Some? && PendingRow(End(acts).db, id, idx)
    requires id in End(acts).audit && idx < |End(acts).audit[id]| ==> End(acts).audit[id][idx].failed == 0
    ensures Resumed(End(acts).db, id, idx)
  {
    PendingRows(acts, id, idx);
  }

  lemma RestartSelects(s: System)
    ensures Step(s, Crash) == Some(AfterCrash(s)) && Step(AfterCrash(s), Select).Some?
    ensures var d := Step(AfterCrash(s), Select).value; d.db == s.db && d.heads == Unfinished(s.db) && !d.quit
  {
  }

  lemma ReadLists(d: System, id: JobId)
    requires id in d.heads && id in d.db.messages && !d.quit
    ensures Step(d, ReadRows(id)).Some?
    ensures var t := Step(d, ReadRows(id)).value;
      id in t.loaded && t.loaded[id] == Resume(id, d.heads[id], d.db.messages[id])
  {
  }

  /** The next lifetime then has the recipient on its recovery list. */
  lemma NextLifetimeLists(s: System, id: JobId, idx: nat)
    requires Resumed(s.db, id, idx)
    ensures var after := Exec(s, [Crash, Select, ReadRows(id)]);
      after.Some? && id in after.value.loaded && Listed(after.value.loaded[id].pending, idx)
  {
    RestartSelects(s);
    ReadLists(Step(AfterCrash(s), Select).value, id);
    ExecTwo(s, Crash, Select);
    ExecStep(s, [Crash, Select], ReadRows(id));
    assert [Crash, Select] + [ReadRows(id)] == [Crash, Select, ReadRows(id)];
  }

  ghost predicate RowWritesSucceed(acts: seq<Action>) {
    forall k :: 0 <= k < |acts| && acts[k].WriteRow? ==> acts[k].ok
  }

  ghost predicate NoneFailed(audit: Audit) {
    forall id, idx: nat :: id in audit && idx < |audit[id]| ==> audit[id][idx].failed == 0
  }

  lemma StepFailsNothing(s: System, a: Action)
    requires NoneFailed(s.audit) && Step(s, a).Some? && (a.WriteRow? ==> a.ok)
    ensures NoneFailed(Step(s, a).value.audit)
  {
  }

  lemma {:induction false} NothingFailed(acts: seq<Action>)
    requires Exec(Init(), acts).Some? && RowWritesSucceed(acts)
    ensures NoneFailed(End(acts).audit)
  {
    if acts != [] {
      var n := |acts| - 1;
      NothingFailed(acts[..n]);
      StepFailsNothing(End(acts[..n]), acts[n]);
    }
  }

  /** While row writes succeed, with crashes anywhere: a completed job has no pending row, and every
      pending row is resumed. */
  lemma CompletedMeansSettled(acts: seq<Action>, id: JobId)
    requires Exec(Init(), acts).Some? && RowWritesSucceed(acts)
    ensures var db := End(acts).db;
      && (IsCompleted(db, id) ==> forall idx: nat :: !PendingRow(db, id, idx))
      && (forall idx: nat :: PendingRow(db, id, idx) ==> Resumed(db, id, idx))
  {
    NothingFailed(acts);
    forall idx: nat | PendingRow(End(acts).db, id, idx)
      ensures !IsCompleted(End(acts).db, id) && Resumed(End(acts).db, id, idx)
    {
      PendingRows(acts, id, idx);
    }
  }

  // ---- a failed row write forgets its recipient ----

  /** One recipient, one attempt, and the write of its outcome fails. */
  function ForgetfulRun(id: JobId, m: BulkMessage, outcome: Outcome, now: int): seq<Action> {
    [Submit(0, id, "default", [m], now, true), Register(0, now)]
    + [Check(0), Attempt(0, outcome), WriteRow(0, false), Settle(0)]
    + [Finish(0, now), FinishWrite(0, true)]
  }

  /** Runner 0 is idle with this list; its job is persisted and the row is as submitted. */
  ghost predicate Untried(s: System, id: JobId, m: BulkMessage, items: seq<BulkItem>) {
    && !s.quit && 0 in s.runners && s.runners[0].phase.Idle? && s.runners[0].items == items
    && s.runners[0].job.id == id && s.runners[0].job.status.Running?
    && id in s.db.jobs && id in s.db.messages && s.db.messages[id] == FreshRows([m])
  }

  lemma ForgetStart(id: JobId, m: BulkMessage, now: int) returns (u: System)
    ensures Exec(Init(), [Submit(0, id, "default", [m], now, true), Register(0, now)]) == Some(u)
    ensures Untried(u, id, m, FreshItems([m]))
  {
    var a, b := Submit(0, id, "default", [m], now, true), Register(0, now);
    var s := Step(Init(), a).value;
    u := Step(s, b).value;
    ExecTwo(Init(), a, b);
  }

  lemma ForgetPass(u: System, id: JobId, m: BulkMessage, outcome: Outcome) returns (t: System)
    requires Untried(u, id, m, FreshItems([m]))
    ensures Exec(u, [Check(0), Attempt(0, outcome), WriteRow(0, false), Settle(0)]) == Some(t)
    ensures Untried(t, id, m, [])
  {
    var c := Step(u, Check(0)).value;
    var d := Step(c, Attempt(0, outcome)).value;
    var e := Step(d, WriteRow(0, false)).value;
    t := Step(e, Settle(0)).value;
    var acts := [Check(0), Attempt(0, outcome), WriteRow(0, false), Settle(0)];
    ExecFour(u, [], Check(0), Attempt(0, outcome), WriteRow(0, false), Settle(0), [u, c, d, e, t]);
    assert [] + acts == acts;
  }

  lemma ForgetEnd(u: System, id: JobId, m: BulkMessage, now: int) returns (t: System)
    requires Untried(u, id, m, [])
    ensures Exec(u, [Finish(0, now), FinishWrite(0, true)]) == Some(t)
    ensures IsCompleted(t.db, id) && id in t.db.messages && t.db.messages[id] == FreshRows([m])
  {
    var s := Step(u, Finish(0, now)).value;
    t := Step(s, FinishWrite(0, true)).value;
    ExecTwo(u, Finish(0, now), FinishWrite(0, true));
  }

  /** With a failed row write the promise does not hold: the job ends completed with a pending row that
      recovery does not select. */
  lemma FailedWriteForgets(id: JobId, m: BulkMessage, outcome: Outcome, now: int)
    ensures var acts := ForgetfulRun(id, m, outcome, now);
      && Exec(Init(), acts).Some?
      && IsCompleted(End(acts).db, id) && PendingRow(End(acts).db, id, 0) && !Resumed(End(acts).db, id, 0)
  {
    var first := [Submit(0, id, "default", [m], now, true), Register(0, now)];
    var pass := [Check(0), Attempt(0, outcome), WriteRow(0, false), Settle(0)];
    var u := ForgetStart(id, m, now);
    var v := ForgetPass(u, id, m, outcome);
    var w := ForgetEnd(v, id, m, now);
    ExecConcat(Init(), first, pass);
    ExecConcat(Init(), first + pass, [Finish(0, now), FinishWrite(0, true)]);
    assert FreshRows([m])[0].result.status.Pending?;
  }
}
