/** What every run of the bulk sender promises each job whose rows it reads safely, over any number of
    process lifetimes. */
module BulkTheorems {
  import opened Options
  import opened BulkTables
  import opened BulkSteps
  import opened BulkJobs
  import opened BulkResume
  import opened BulkLaw

  ghost predicate Possible(acts: seq<Action>, id: JobId) {
    Exec(Init(), acts).Some? && SafeRun(Init(), acts, id)
  }

  /** Every attempt is accounted for: its outcome was recorded (at most once), was lost to a crash or
      a failed write, or is in the one open window. So a recipient is sent to at most once more
      than the number of its lost outcomes, and a settled recipient is never being sent to. */
  lemma AtMostOnce(acts: seq<Action>, id: JobId, idx: nat)
    requires Possible(acts, id) && id in End(acts).audit && idx < |End(acts).audit[id]|
    ensures var t := End(acts).audit[id][idx];
      && t.sends + t.refused == t.lost + t.written + One(InFlightAt(End(acts).runners, id, idx))
      && t.sends <= 1 + t.lost
      && (SettledRow(End(acts).db, id, idx) ==> t.written == 1 && !InFlightAt(End(acts).runners, id, idx))
  {
    RunKeeps(acts, id);
    var s := End(acts);
    TeamWindows(s.runners, id, idx);
    assert LawAt(ViewOf(s, id), idx);
    NoWindowAfter(ViewOf(s, id), idx);
  }

  ghost predicate SettledRow(db: Tables, id: JobId, idx: nat) {
    id in db.messages && idx < |db.messages[id]| && !db.messages[id][idx].result.status.Pending?
  }

  /** No crash falls into a send-to-write window and no row write fails. */
  ghost predicate Gentle(acts: seq<Action>) {
    acts == [] ||
    (var n := |acts| - 1;
     Gentle(acts[..n]) &&
     (acts[n].WriteRow? ==> acts[n].ok) &&
     (acts[n].Crash? && Exec(Init(), acts[..n]).Some? ==>
       forall id, idx: nat :: !InFlightAt(End(acts[..n]).runners, id, idx)))
  }

  ghost predicate ZeroLost(audit: Audit) {
    forall id, idx: nat :: id in audit && idx < |audit[id]| ==> audit[id][idx].lost == 0
  }

  lemma StepLosesNothing(s: System, a: Action)
    requires ZeroLost(s.audit) && Step(s, a).Some?
    requires a.WriteRow? ==> a.ok
    requires a.Crash? ==> forall id, idx: nat :: !InFlightAt(s.runners, id, idx)
    ensures ZeroLost(Step(s, a).value.audit)
  {
  }

  lemma {:induction false} NothingLost(acts: seq<Action>)
    requires Exec(Init(), acts).Some? && Gentle(acts)
    ensures ZeroLost(End(acts).audit)
  {
    if acts != [] {
      var n := |acts| - 1;
      NothingLost(acts[..n]);
      StepLosesNothing(End(acts[..n]), acts[n]);
    }
  }

  /** Shutdown, restart and recovery alone never repeat a message. */
  lemma GentleRunsNeverRepeat(acts: seq<Action>, id: JobId, idx: nat)
    requires Possible(acts, id) && Gentle(acts) && id in End(acts).audit && idx < |End(acts).audit[id]|
    ensures End(acts).audit[id][idx].sends <= 1
  {
    NothingLost(acts);
    AtMostOnce(acts, id, idx);
  }

  /** Besides submitting a job and writing a row, no step touches the message table. */
  lemma MessagesKept(s: System, a: Action)
    requires Step(s, a).Some? && !a.WriteRow? && !a.Submit?
    ensures Step(s, a).value.db.messages == s.db.messages
  {
  }

  lemma SubmitAddsRows(s: System, a: Action, id: JobId)
    requires Base(s) && a.Submit? && Step(s, a).Some? && id in s.db.messages
    ensures var db := Step(s, a).value.db; id in db.messages && db.messages[id] == s.db.messages[id]
  {
    assert id in s.audit;
  }

  /** A runner about to write a row finds it pending. */
  lemma WritesPending(s: System, a: Action, id: JobId)
    requires Inv(s, id) && a.WriteRow? && Step(s, a).Some? && s.runners[a.runner].job.id == id
    ensures Untouched(ViewOf(s, id), s.runners[a.runner].items[0].idx)
    ensures !s.runners[a.runner].phase.res.status.Pending?
  {
    var v := ViewOf(s, id);
    assert MemberOk(v, v.team[a.runner]);
    assert Untouched(v, Work(v.team[a.runner])[0].idx);
  }

  /** A row once sent or failed never changes again, whatever the service does next. */
  lemma SettledRowKept(s: System, a: Action, id: JobId, idx: nat)
    requires Inv(s, id) && Step(s, a).Some? && SettledRow(s.db, id, idx)
    ensures var db := Step(s, a).value.db;
      id in db.messages && |db.messages[id]| == |s.db.messages[id]| && db.messages[id][idx] == s.db.messages[id][idx]
  {
    if a.WriteRow? {
      if s.runners[a.runner].job.id == id {
        WritesPending(s, a, id);
      }
    } else if a.Submit? {
      SubmitAddsRows(s, a, id);
    } else {
      MessagesKept(s, a);
    }
  }

  /** A run seen as its last step after the rest. */
  lemma LastStep(acts: seq<Action>, more: seq<Action>, id: JobId)
    requires more != [] && Possible(acts + more, id)
    ensures var n := |more| - 1; var before := acts + more[..n];
      Possible(before, id) && Step(End(before), more[n]) == Some(End(acts + more))
  {
    var n := |more| - 1;
    var all := acts + more;
    assert all[..|all| - 1] == acts + more[..n] && all[|all| - 1] == more[n];
  }

  lemma {:induction false} SettledRowsAreFinal(acts: seq<Action>, more: seq<Action>, id: JobId, idx: nat)
    requires Possible(acts + more, id) && Exec(Init(), acts).Some? && SettledRow(End(acts).db, id, idx)
    ensures SettledRow(End(acts + more).db, id, idx)
    ensures End(acts + more).db.messages[id][idx] == End(acts).db.messages[id][idx]
  {
    if more == [] {
      assert acts + more == acts;
    } else {
      var n := |more| - 1;
      LastStep(acts, more, id);
      SettledRowsAreFinal(acts, more[..n], id, idx);
      RunKeeps(acts + more[..n], id);
      SettledRowKept(End(acts + more[..n]), more[n], id, idx);
    }
  }

  // ---- stopping ----

  /** The runner has looked for a stop, saw none, and will attempt its next item. */
  ghost predicate AboutToSend(s: System, r: RunnerId) {
    r in s.runners && s.runners[r].phase.Checked?
  }

  ghost function AttemptsBy(acts: seq<Action>, r: RunnerId): nat {
    if acts == [] then 0 else
      var n := |acts| - 1;
      AttemptsBy(acts[..n], r) + if acts[n].Attempt? && acts[n].runner == r then 1 else 0
  }

  lemma StoppingStep(s: System, a: Action, r: RunnerId)
    requires s.quit && Step(s, a).Some? && !a.Crash?
    ensures Step(s, a).value.quit
    ensures One(AboutToSend(Step(s, a).value, r)) + One(a.Attempt? && a.runner == r) <= One(AboutToSend(s, r))
  {
    if OfRunner(a) {
      OneMoves(s, a);
    }
  }

  /** A stop is prompt: until the process ends, a runner makes at most the one attempt it had already
      decided on, and runners that begin after the stop make none. */
  lemma {:induction false} StopIsPrompt(s: System, more: seq<Action>, r: RunnerId)
    requires s.quit && Exec(s, more).Some? && forall k :: 0 <= k < |more| ==> !more[k].Crash?
    ensures Exec(s, more).value.quit
    ensures AttemptsBy(more, r) + One(AboutToSend(Exec(s, more).value, r)) <= One(AboutToSend(s, r))
  {
    if more != [] {
      var n := |more| - 1;
      StopIsPrompt(s, more[..n], r);
      StoppingStep(Exec(s, more[..n]).value, more[n], r);
    }
  }

  /** What an idle runner can do: look at its next item unless the service stops, or finish when it has
      none left, as completed, or when the service stops with some left, as interrupted. */
  lemma IdleRunner(s: System, r: RunnerId, now: int)
    requires r in s.runners && s.runners[r].phase.Idle? && s.runners[r].job.status.Running?
    ensures Step(s, Check(r)).Some? <==> s.runners[r].items != [] && !s.quit
    ensures Step(s, Finish(r, now)).Some? <==> s.runners[r].items == [] || s.quit
    ensures Step(s, Finish(r, now)).Some? ==>
      var job := Step(s, Finish(r, now)).value.runners[r].job;
      job.finishedAt == now && job.status == if s.runners[r].items == [] then Completed else Interrupted
  {
  }
}
