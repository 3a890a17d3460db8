/** Everyone gets their own message: in every run, through crashes and recoveries, the address and text of
    an attempt, and of its row, are those submitted for that recipient. */
module BulkRecipients {
  import opened Options
  import opened BulkTables
  import opened BulkSteps
  import opened BulkJobs
  import opened BulkResume

  /** What was submitted under the job id. */
  ghost function Submitted(acts: seq<Action>, id: JobId): seq<BulkMessage> {
    if acts == [] then [] else
      var n := |acts| - 1; var before := Exec(Init(), acts[..n]);
      if acts[n].Submit? && acts[n].id == id && before.Some? && Step(before.value, acts[n]).Some? then acts[n].msgs
      else Submitted(acts[..n], id)
  }

  /** The item is for one of the recipients, with that recipient's address and text. */
  ghost predicate ItemFor(item: BulkItem, msgs: seq<BulkMessage>) {
    item.idx < |msgs| && item.to == msgs[item.idx].to && item.text == msgs[item.idx].text
  }

  ghost predicate ItemsFor(items: seq<BulkItem>, msgs: seq<BulkMessage>) {
    forall k :: 0 <= k < |items| ==> ItemFor(items[k], msgs)
  }

  ghost predicate RowsFor(rows: seq<MsgRow>, msgs: seq<BulkMessage>) {
    && |rows| == |msgs|
    && forall i :: 0 <= i < |rows| ==> rows[i].result.to == msgs[i].to && rows[i].text == msgs[i].text
  }

  ghost predicate Carried(v: JobState, msgs: seq<BulkMessage>) {
    && (v.rows.Some? ==> RowsFor(v.rows.value, msgs))
    && (forall r :: r in v.team ==> ItemsFor(v.team[r].items, msgs))
    && (v.entry.Some? ==> ItemsFor(v.entry.value.pending, msgs))
  }

  lemma MoveItems(s: System, a: Action)
    requires Step(s, a).Some? && OfRunner(a)
    ensures a.runner in s.runners && a.runner in Step(s, a).value.runners
    ensures var p, q := s.runners[a.runner], Step(s, a).value.runners[a.runner];
      q.items == p.items || (p.items != [] && q.items == p.items[1..])
  {
  }

  lemma TeamCarried(v: JobState, w: JobState, r: RunnerId, msgs: seq<BulkMessage>)
    requires Carried(v, msgs) && r in v.team && r in w.team && w.team == v.team[r := w.team[r]]
    requires w.team[r].items == v.team[r].items
          || (v.team[r].items != [] && w.team[r].items == v.team[r].items[1..])
    requires w.entry == v.entry && (w.rows.Some? ==> RowsFor(w.rows.value, msgs))
    ensures Carried(w, msgs)
  {
    assert ItemsFor(v.team[r].items, msgs);
  }

  lemma RunnerCarries(s: System, a: Action, id: JobId, msgs: seq<BulkMessage>)
    requires Carried(ViewOf(s, id), msgs) && Step(s, a).Some? && OfRunner(a) && Concerns(s, a, id)
    ensures Carried(ViewOf(Step(s, a).value, id), msgs)
  {
    var v, w := ViewOf(s, id), ViewOf(Step(s, a).value, id);
    MoveItems(s, a);
    if a.Attempt? {
      AttemptView(s, a, id);
    } else if a.WriteRow? {
      WriteView(s, a, id);
    } else {
      MoveView(s, a, id);
    }
    TeamCarried(v, w, a.runner, msgs);
  }

  lemma SubmitCarries(s: System, a: Action)
    requires Base(s) && Step(s, a).Some? && a.Submit?
    ensures Carried(ViewOf(Step(s, a).value, a.id), a.msgs)
  {
    SubmitView(s, a);
  }

  lemma ReadCarries(s: System, id: JobId, msgs: seq<BulkMessage>)
    requires Carried(ViewOf(s, id), msgs) && Step(s, ReadRows(id)).Some?
    ensures Carried(ViewOf(Step(s, ReadRows(id)).value, id), msgs)
  {
    ReadView(s, id);
    PendingItemsMatch(s.db.messages[id]);
  }

  lemma StartCarries(s: System, a: Action, msgs: seq<BulkMessage>)
    requires a.ResumeStart? && Base(s) && Carried(ViewOf(s, a.id), msgs) && Step(s, a).Some?
    ensures Carried(ViewOf(Step(s, a).value, a.id), msgs)
  {
    StartView(s, a);
  }

  lemma StepCarries(s: System, a: Action, id: JobId, msgs: seq<BulkMessage>)
    requires Base(s) && Carried(ViewOf(s, id), msgs) && Step(s, a).Some? && !(a.Submit? && a.id == id)
    ensures Carried(ViewOf(Step(s, a).value, id), msgs)
  {
    if !Concerns(s, a, id) {
      Elsewhere(s, a, id);
    } else if OfRunner(a) {
      RunnerCarries(s, a, id, msgs);
    } else if a.ReadRows? {
      ReadCarries(s, id, msgs);
    } else if a.ResumeStart? {
      StartCarries(s, a, msgs);
    } else {
      CrashView(s, id);
    }
  }

  lemma {:induction false} RunCarries(acts: seq<Action>, id: JobId)
    requires Exec(Init(), acts).Some?
    ensures Carried(ViewOf(End(acts), id), Submitted(acts, id))
  {
    if acts != [] {
      var n := |acts| - 1; var a := acts[n];
      RunRemembers(acts[..n], id);
      RunCarries(acts[..n], id);
      if a.Submit? && a.id == id {
        SubmitCarries(End(acts[..n]), a);
      } else {
        StepCarries(End(acts[..n]), a, id, Submitted(acts[..n], id));
      }
    }
  }

  /** In every run, whoever is attempted is sent the text submitted for them, at the address submitted
      for them, by whatever runner of whatever lifetime. */
  lemma AttemptsCarryOwnText(acts: seq<Action>, r: RunnerId, outcome: Outcome)
    requires Exec(Init(), acts).Some? && Step(End(acts), Attempt(r, outcome)).Some?
    ensures r in End(acts).runners && End(acts).runners[r].items != []
    ensures var p := End(acts).runners[r]; var msgs := Submitted(acts, p.job.id); var item := p.items[0];
      item.idx < |msgs| && item.to == msgs[item.idx].to && item.text == msgs[item.idx].text
  {
    var p := End(acts).runners[r];
    RunCarries(acts, p.job.id);
    assert r in ViewOf(End(acts), p.job.id).team;
    assert ItemFor(p.items[0], Submitted(acts, p.job.id));
  }

  /** In every run, a persisted job has one row for each submitted recipient, with address and text. */
  lemma RowsKeepRecipients(acts: seq<Action>, id: JobId)
    requires Exec(Init(), acts).Some? && id in End(acts).db.messages
    ensures var rows, msgs := End(acts).db.messages[id], Submitted(acts, id);
      && |rows| == |msgs|
      && forall i :: 0 <= i < |rows| ==> rows[i].result.to == msgs[i].to && rows[i].text == msgs[i].text
  {
    RunCarries(acts, id);
    assert ViewOf(End(acts), id).rows == Some(End(acts).db.messages[id]);
  }
}
