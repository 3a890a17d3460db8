/** What an attempt's outcome becomes: in every run, a message row says exactly what the attempt behind
    its last recorded write met, so a job's sent and failed count accepted and refused sends. */
module BulkOutcomes {
  import opened Options
  import opened BulkTables
  import opened BulkSteps
  import opened BulkJobs
  import opened BulkResume

  /** The outcome of the last attempt that runner r made. */
  ghost function LastAttempt(acts: seq<Action>, r: RunnerId): Option<Outcome> {
    if acts == [] then None else
      var n := |acts| - 1;
      if acts[n].Attempt? && acts[n].runner == r then Some(acts[n].outcome) else LastAttempt(acts[..n], r)
  }

  /** The action writes the row of recipient idx of job id. */
  ghost predicate WritesRow(s: System, a: Action, id: JobId, idx: nat) {
    && a.WriteRow? && a.ok && a.runner in s.runners && s.runners[a.runner].job.id == id
    && s.runners[a.runner].items != [] && s.runners[a.runner].items[0].idx == idx
  }

  /** The outcome behind the last write of recipient idx of job id, if there was one. */
  ghost function LastWritten(acts: seq<Action>, id: JobId, idx: nat): Option<Outcome> {
    if acts == [] then None else
      var n := |acts| - 1; var before := Exec(Init(), acts[..n]);
      if before.Some? && WritesRow(before.value, acts[n], id, idx) then LastAttempt(acts[..n], acts[n].runner)
      else LastWritten(acts[..n], id, idx)
  }

  /** An open window holds what the runner's last attempt met. */
  ghost predicate FlyingSays(s: System, acts: seq<Action>) {
    forall r :: r in s.runners && s.runners[r].phase.InFlight? ==>
      LastAttempt(acts, r).Some? && Says(s.runners[r].phase.res, LastAttempt(acts, r).value)
  }

  ghost predicate RowSays(row: MsgRow, written: Option<Outcome>) {
    (written.None? ==> row.result.status == Pending) && (written.Some? ==> Says(row.result, written.value))
  }

  ghost predicate RowsSay(s: System, acts: seq<Action>, id: JobId) {
    id in s.db.messages ==>
      forall idx: nat :: idx < |s.db.messages[id]| ==> RowSays(s.db.messages[id][idx], LastWritten(acts, id, idx))
  }

  lemma FlyingStep(s: System, acts: seq<Action>, a: Action)
    requires FlyingSays(s, acts) && Step(s, a).Some?
    ensures FlyingSays(Step(s, a).value, acts + [a])
  {
    var t := Step(s, a).value;
    assert (acts + [a])[..|acts|] == acts;
    forall r | r in t.runners && t.runners[r].phase.InFlight?
      ensures LastAttempt(acts + [a], r).Some? && Says(t.runners[r].phase.res, LastAttempt(acts + [a], r).value)
    {
      if !(a.Attempt? && a.runner == r) {
        StillFlying(s, a, r);
      }
    }
  }

  /** Only an attempt opens a window. */
  lemma StillFlying(s: System, a: Action, r: RunnerId)
    requires Step(s, a).Some? && !(a.Attempt? && a.runner == r)
    requires r in Step(s, a).value.runners && Step(s, a).value.runners[r].phase.InFlight?
    ensures r in s.runners && s.runners[r] == Step(s, a).value.runners[r]
  {
    if OfRunner(a) {
      OneMoves(s, a);
    }
  }

  lemma WrittenNext(acts: seq<Action>, s: System, a: Action, id: JobId, idx: nat)
    requires Exec(Init(), acts) == Some(s)
    ensures LastWritten(acts + [a], id, idx) ==
      if WritesRow(s, a, id, idx) then LastAttempt(acts, a.runner) else LastWritten(acts, id, idx)
  {
    assert (acts + [a])[..|acts|] == acts;
  }

  lemma WriteSays(acts: seq<Action>, s: System, a: Action, id: JobId)
    requires Exec(Init(), acts) == Some(s) && FlyingSays(s, acts) && RowsSay(s, acts, id)
    requires Step(s, a).Some? && a.WriteRow? && Concerns(s, a, id)
    ensures RowsSay(Step(s, a).value, acts + [a], id)
  {
    var t := Step(s, a).value;
    WriteView(s, a, id);
    if id in t.db.messages {
      assert ViewOf(t, id).rows == Some(t.db.messages[id]) && ViewOf(s, id).rows == Some(s.db.messages[id]);
      forall idx: nat | idx < |t.db.messages[id]|
        ensures RowSays(t.db.messages[id][idx], LastWritten(acts + [a], id, idx))
      {
        WrittenNext(acts, s, a, id, idx);
        assert RowSays(s.db.messages[id][idx], LastWritten(acts, id, idx));
      }
    }
  }

  lemma SubmitSays(acts: seq<Action>, s: System, a: Action)
    requires Exec(Init(), acts) == Some(s) && Base(s) && Step(s, a).Some? && a.Submit?
    requires forall idx: nat :: LastWritten(acts, a.id, idx) == None
    ensures RowsSay(Step(s, a).value, acts + [a], a.id)
  {
    var t := Step(s, a).value;
    SubmitView(s, a);
    if a.id in t.db.messages {
      assert ViewOf(t, a.id).rows == Some(t.db.messages[a.id]);
      forall idx: nat | idx < |t.db.messages[a.id]|
        ensures RowSays(t.db.messages[a.id][idx], LastWritten(acts + [a], a.id, idx))
      {
        WrittenNext(acts, s, a, a.id, idx);
      }
    }
  }

  lemma OtherSays(acts: seq<Action>, s: System, a: Action, id: JobId)
    requires Exec(Init(), acts) == Some(s) && Base(s) && RowsSay(s, acts, id) && Step(s, a).Some?
    requires !(a.Submit? && a.id == id) && !(a.WriteRow? && Concerns(s, a, id))
    ensures RowsSay(Step(s, a).value, acts + [a], id)
  {
    var t := Step(s, a).value;
    RowsKept(s, a, id);
    if id in t.db.messages {
      forall idx: nat | idx < |t.db.messages[id]|
        ensures RowSays(t.db.messages[id][idx], LastWritten(acts + [a], id, idx))
      {
        WrittenNext(acts, s, a, id, idx);
        assert RowSays(s.db.messages[id][idx], LastWritten(acts, id, idx));
      }
    }
  }

  lemma RowsKept(s: System, a: Action, id: JobId)
    requires Step(s, a).Some? && !(a.Submit? && a.id == id) && !(a.WriteRow? && Concerns(s, a, id))
    ensures var t := Step(s, a).value;
      id in t.db.messages ==> id in s.db.messages && t.db.messages[id] == s.db.messages[id]
  {
  }

  /** Nothing was written for a job nobody has submitted. */
  lemma {:induction false} NothingWritten(acts: seq<Action>, id: JobId, idx: nat)
    requires Exec(Init(), acts).Some? && id !in End(acts).audit
    ensures LastWritten(acts, id, idx) == None
  {
    if acts != [] {
      var n := |acts| - 1;
      var s := End(acts[..n]);
      RunRemembers(acts[..n], id);
      if id in s.audit {
        AuditStays(s, acts[n], id);
      }
      NothingWritten(acts[..n], id, idx);
    }
  }

  lemma AuditStays(s: System, a: Action, id: JobId)
    requires Step(s, a).Some? && id in s.audit
    ensures id in Step(s, a).value.audit
  {
    if !a.Submit? {
      if OfRunner(a) {
        RunnerStepExtent(s, a);
      } else {
        OtherStepExtent(s, a);
      }
    }
  }

  lemma {:induction false} RunSays(acts: seq<Action>, id: JobId)
    requires Exec(Init(), acts).Some?
    ensures FlyingSays(End(acts), acts) && RowsSay(End(acts), acts, id)
  {
    if acts != [] {
      var n := |acts| - 1; var a := acts[n];
      var s := End(acts[..n]);
      RunSays(acts[..n], id);
      RunRemembers(acts[..n], id);
      assert acts == acts[..n] + [a];
      FlyingStep(s, acts[..n], a);
      if a.Submit? && a.id == id {
        forall idx: nat ensures LastWritten(acts[..n], id, idx) == None {
          NothingWritten(acts[..n], id, idx);
        }
        SubmitSays(acts[..n], s, a);
      } else if a.WriteRow? && Concerns(s, a, id) {
        WriteSays(acts[..n], s, a, id);
      } else {
        OtherSays(acts[..n], s, a, id);
      }
    }
  }

  /** In every run, a row is sent, with a message id, exactly when the write last recorded for it came
      after an attempt that was accepted with that id; it is failed exactly when that attempt was refused
      or failed, with the reason; and it is pending exactly when nothing was recorded. */
  lemma RowsTellOutcomes(acts: seq<Action>, id: JobId, idx: nat)
    requires Exec(Init(), acts).Some? && id in End(acts).db.messages && idx < |End(acts).db.messages[id]|
    ensures var res, o := End(acts).db.messages[id][idx].result, LastWritten(acts, id, idx);
      && (res.status == Pending <==> o == None)
      && (res.status == Sent <==> o.Some? && o.value.Accepted?)
      && (res.status == Sent ==> o == Some(Accepted(res.messageId)) && res.error == "")
      && (res.status == Failed ==>
           res.messageId == "" && o in {Some(SendError(res.error)), Some(NoSession(res.error))})
  {
    RunSays(acts, id);
    assert RowSays(End(acts).db.messages[id][idx], LastWritten(acts, id, idx));
  }

  /** How many of the first n recipients have an accepted send recorded. */
  ghost function AcceptedRows(acts: seq<Action>, id: JobId, n: nat): nat {
    if n == 0 then 0 else
      var o := LastWritten(acts, id, n - 1);
      AcceptedRows(acts, id, n - 1) + if o.Some? && o.value.Accepted? then 1 else 0
  }

  lemma {:induction false} CountAccepted(acts: seq<Action>, id: JobId, n: nat)
    requires Exec(Init(), acts).Some? && id in End(acts).db.messages && n <= |End(acts).db.messages[id]|
    ensures CountStatus(Results(End(acts).db.messages[id])[..n], Sent) == AcceptedRows(acts, id, n)
  {
    if n > 0 {
      var results := Results(End(acts).db.messages[id]);
      CountAccepted(acts, id, n - 1);
      RowsTellOutcomes(acts, id, n - 1);
      assert results[..n][..n - 1] == results[..n - 1];
    }
  }

  /** In every run, the sent counter of a job read from the tables is the number of its recipients whose
      recorded send was accepted. */
  lemma SentCountsAccepted(acts: seq<Action>, id: JobId)
    requires Exec(Init(), acts).Some? && id in End(acts).db.jobs && id in End(acts).db.messages
    requires End(acts).db.messages[id] != []
    ensures LoadJob(End(acts).db, id).Some?
    ensures LoadJob(End(acts).db, id).value.sent == AcceptedRows(acts, id, |End(acts).db.messages[id]|)
  {
    var results := Results(End(acts).db.messages[id]);
    CountAccepted(acts, id, |results|);
    assert results[..|results|] == results;
  }
}
