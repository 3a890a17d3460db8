/** The accounting law of one job's recipients, kept by every step of a run that reads the job's rows
    safely: attempts = outcomes lost + outcomes recorded + the one attempt still in its window. */
module BulkLaw {
  import opened Options
  import opened BulkTables
  import opened BulkSteps
  import opened BulkJobs

  ghost predicate Increasing(items: seq<BulkItem>) {
    forall k, l :: 0 <= k < l < |items| ==> items[k].idx < items[l].idx
  }

  /** The recipient has no recorded outcome, and its row (if the job is persisted) is pending. */
  ghost predicate Untouched(v: JobState, idx: nat) {
    && idx < |v.tallies| && v.tallies[idx].written == 0
    && (v.rows.Some? ==> idx < |v.rows.value| && v.rows.value[idx].result.status.Pending?)
  }

  ghost predicate AllUntouched(v: JobState, items: seq<BulkItem>) {
    forall k :: 0 <= k < |items| ==> Untouched(v, items[k].idx)
  }

  ghost predicate MemberOk(v: JobState, p: Runner) {
    && p.job.id == v.id
    && Increasing(p.items)
    && (p.phase.Checked? || p.phase.InFlight? || p.phase.Written? ==> p.items != [])
    && (p.phase.InFlight? ==> !p.phase.res.status.Pending?)
    && AllUntouched(v, Work(p))
  }

  ghost predicate TeamOk(v: JobState) {
    forall r :: r in v.team ==> MemberOk(v, v.team[r])
  }

  ghost predicate EntryOk(v: JobState) {
    v.entry.Some? ==> Increasing(v.entry.value.pending) && AllUntouched(v, v.entry.value.pending)
  }

  /** No two runners have work on the job, and none has while it awaits recovery. */
  ghost predicate Exclusive(team: Runners, awaiting: bool) {
    && (forall q, r :: q in team && r in team && q != r ==> Work(team[q]) == [] || Work(team[r]) == [])
    && (awaiting ==> forall r :: r in team ==> Work(team[r]) == [])
  }

  /** The law for one recipient. */
  ghost predicate LawAt(v: JobState, idx: nat)
    requires idx < |v.tallies|
  {
    var t := v.tallies[idx];
    && t.sends + t.refused == t.lost + t.written + One(InFlightAt(v.team, v.id, idx))
    && t.written <= 1
    && (v.rows.Some? && idx < |v.rows.value| ==> (t.written == 1 <==> !v.rows.value[idx].result.status.Pending?))
  }

  ghost predicate Law(v: JobState) {
    forall idx: nat :: idx < |v.tallies| ==> LawAt(v, idx)
  }

  ghost predicate JobInv(v: JobState) {
    TeamOk(v) && EntryOk(v) && Exclusive(v.team, v.entry.Some?) && Law(v)
  }

  /** What every step keeps about job id when its rows are read safely. */
  ghost predicate Inv(s: System, id: JobId) {
    Base(s) && JobInv(ViewOf(s, id))
  }

  // ---- windows ----

  /** A change of one runner that neither opens nor closes a window leaves the windows alone. */
  lemma WindowsKept(team: Runners, r: RunnerId, q: Runner, id: JobId)
    requires !q.phase.InFlight? && (r in team ==> !team[r].phase.InFlight?)
    ensures forall idx: nat :: InFlightAt(team[r := q], id, idx) == InFlightAt(team, id, idx)
  {
    var after := team[r := q];
    forall idx: nat ensures InFlightAt(after, id, idx) == InFlightAt(team, id, idx) {
      if InFlightAt(team, id, idx) {
        var m :| m in team && InFlightBy(team[m], id, idx);
        assert m in after && InFlightBy(after[m], id, idx);
      }
      if InFlightAt(after, id, idx) {
        var m :| m in after && InFlightBy(after[m], id, idx);
        assert m in team && InFlightBy(team[m], id, idx);
      }
    }
  }

  lemma NoWindow(team: Runners, r: RunnerId, id: JobId, idx: nat)
    requires forall m :: m in team && m != r ==> Work(team[m]) == []
    requires r in team ==> !InFlightBy(team[r], id, idx)
    ensures !InFlightAt(team, id, idx)
  {
  }

  /** Opening or closing runner r's window: the only window the job can have is at r's head item. */
  lemma WindowMoved(team: Runners, r: RunnerId, q: Runner, awaiting: bool, opens: bool)
    requires r in team && q.items != [] && team[r].items == q.items && team[r].job.id == q.job.id
    requires Exclusive(team, awaiting) && Work(team[r]) != []
    requires q.phase.InFlight? == opens && team[r].phase.InFlight? == !opens
    ensures InFlightAt(team, q.job.id, q.items[0].idx) == !opens
    ensures InFlightAt(team[r := q], q.job.id, q.items[0].idx) == opens
    ensures forall idx: nat :: idx != q.items[0].idx ==>
      !InFlightAt(team[r := q], q.job.id, idx) && !InFlightAt(team, q.job.id, idx)
  {
    var id := q.job.id;
    var after := team[r := q];
    forall m | m in team && m != r ensures Work(team[m]) == [] {
    }
    forall idx: nat | idx != q.items[0].idx ensures !InFlightAt(team, id, idx) && !InFlightAt(after, id, idx) {
      NoWindow(team, r, id, idx);
      NoWindow(after, r, id, idx);
    }
    if opens {
      assert InFlightBy(after[r], id, q.items[0].idx);
    } else {
      assert InFlightBy(team[r], id, q.items[0].idx);
    }
  }

  /** A recipient whose outcome is recorded is not being sent to. */
  lemma NoWindowAfter(v: JobState, idx: nat)
    requires JobInv(v) && idx < |v.tallies|
    ensures v.tallies[idx].written == 1 ==> !InFlightAt(v.team, v.id, idx)
  {
    forall r | r in v.team && InFlightBy(v.team[r], v.id, idx) ensures v.tallies[idx].written == 0 {
      assert MemberOk(v, v.team[r]);
      assert Untouched(v, Work(v.team[r])[0].idx);
    }
  }

  // ---- one runner moves ----

  lemma UntouchedKept(v: JobState, w: JobState, items: seq<BulkItem>)
    requires AllUntouched(v, items) && forall idx: nat :: Untouched(v, idx) ==> Untouched(w, idx)
    ensures AllUntouched(w, items)
  {
    forall k | 0 <= k < |items| ensures Untouched(w, items[k].idx) {
      assert Untouched(v, items[k].idx);
    }
  }

  lemma ExclusiveKept(team: Runners, awaiting: bool, r: RunnerId, q: Runner)
    requires Exclusive(team, awaiting) && r in team
    requires Work(team[r]) == [] ==> Work(q) == []
    ensures Exclusive(team[r := q], awaiting)
  {
  }

  /** The phase changes that neither open nor close a window. */
  lemma MoveMember(s: System, a: Action, v: JobState)
    requires Step(s, a).Some? && OfRunner(a) && !a.Attempt? && !a.WriteRow?
    requires a.runner in s.runners && MemberOk(v, s.runners[a.runner])
    ensures a.runner in Step(s, a).value.runners
    ensures var p, q := s.runners[a.runner], Step(s, a).value.runners[a.runner];
      && MemberOk(v, q) && !p.phase.InFlight? && !q.phase.InFlight? && (Work(p) == [] ==> Work(q) == [])
  {
  }

  lemma TeamPlus(v: JobState, w: JobState, r: RunnerId)
    requires TeamOk(v) && r in w.team && w.id == v.id && w.team == v.team[r := w.team[r]] && MemberOk(v, w.team[r])
    requires w.tallies == v.tallies && w.rows == v.rows
    ensures TeamOk(w)
  {
    forall q | q in w.team ensures MemberOk(w, w.team[q]) {
      UntouchedKept(v, w, Work(w.team[q]));
    }
  }

  lemma TeamMoved(v: JobState, w: JobState, r: RunnerId)
    requires JobInv(v) && r in v.team && r in w.team && w == v.(team := v.team[r := w.team[r]])
    requires MemberOk(v, w.team[r]) && !v.team[r].phase.InFlight? && !w.team[r].phase.InFlight?
    requires Work(v.team[r]) == [] ==> Work(w.team[r]) == []
    ensures JobInv(w)
  {
    WindowsKept(v.team, r, w.team[r], v.id);
    ExclusiveKept(v.team, v.entry.Some?, r, w.team[r]);
    TeamPlus(v, w, r);
    forall idx: nat | idx < |w.tallies| ensures LawAt(w, idx) {
      assert LawAt(v, idx);
    }
    if w.entry.Some? {
      UntouchedKept(v, w, w.entry.value.pending);
    }
  }

  lemma MoveKeeps(s: System, a: Action, id: JobId)
    requires JobInv(ViewOf(s, id)) && Step(s, a).Some? && Concerns(s, a, id)
    requires OfRunner(a) && !a.Attempt? && !a.WriteRow?
    ensures JobInv(ViewOf(Step(s, a).value, id))
  {
    var v, w := ViewOf(s, id), ViewOf(Step(s, a).value, id);
    MoveView(s, a, id);
    assert MemberOk(v, v.team[a.runner]);
    MoveMember(s, a, v);
    TeamMoved(v, w, a.runner);
  }

  // ---- a window opens ----

  lemma AttemptRest(v: JobState, w: JobState, r: RunnerId)
    requires TeamOk(v) && EntryOk(v) && r in v.team && r in w.team && w.team == v.team[r := w.team[r]]
    requires w.team[r] == v.team[r].(phase := w.team[r].phase) && v.team[r].phase.Checked?
    requires w.team[r].phase.InFlight? && !w.team[r].phase.res.status.Pending?
    requires w.id == v.id && w.rows == v.rows && w.entry == v.entry && |w.tallies| == |v.tallies|
    requires forall idx: nat :: idx < |v.tallies| ==> w.tallies[idx].written == v.tallies[idx].written
    ensures TeamOk(w) && EntryOk(w)
  {
    forall q | q in w.team ensures MemberOk(w, w.team[q]) {
      assert MemberOk(v, v.team[q]);
      UntouchedKept(v, w, Work(w.team[q]));
    }
    if w.entry.Some? {
      UntouchedKept(v, w, w.entry.value.pending);
    }
  }

  /** Calling SendText, or refusing to, opens the window of one untouched recipient. */
  lemma AttemptLaw(v: JobState, w: JobState, r: RunnerId, res: BulkResult, e: Entry)
    requires JobInv(v) && r in v.team && v.team[r].phase.Checked? && !res.status.Pending? && (e.Sends? || e.Refused?)
    requires v.team[r].items != []
    requires w == v.(team := v.team[r := v.team[r].(phase := InFlight(res))],
                     tallies := Credited(v.tallies, v.team[r].items[0].idx, e))
    ensures JobInv(w)
  {
    var p := v.team[r];
    assert MemberOk(v, p) && Untouched(v, Work(p)[0].idx);
    WindowMoved(v.team, r, w.team[r], v.entry.Some?, true);
    forall idx: nat | idx < |w.tallies| ensures LawAt(w, idx) {
      assert LawAt(v, idx);
    }
    ExclusiveKept(v.team, v.entry.Some?, r, w.team[r]);
    AttemptRest(v, w, r);
  }

  lemma AttemptKeeps(s: System, a: Action, id: JobId)
    requires JobInv(ViewOf(s, id)) && Step(s, a).Some? && Concerns(s, a, id) && a.Attempt?
    ensures JobInv(ViewOf(Step(s, a).value, id))
  {
    AttemptView(s, a, id);
    var p := s.runners[a.runner];
    AttemptLaw(ViewOf(s, id), ViewOf(Step(s, a).value, id), a.runner, ResultOf(p.items[0], a.outcome),
               if a.outcome.NoSession? then Refused else Sends);
  }

  // ---- a window closes, with the outcome recorded or lost ----

  /** The job state after the write of runner r's head row. */
  function Wrote(v: JobState, r: RunnerId, ok: bool): JobState
    requires r in v.team && v.team[r].phase.InFlight? && v.team[r].items != []
  {
    var p := v.team[r];
    v.(team := v.team[r := p.(phase := Written(p.phase.res))],
       tallies := Credited(v.tallies, p.items[0].idx, if ok then Recorded else Lost),
       rows := if ok && v.rows.Some? then Some(Rewritten(v.rows.value, p.items[0].idx, p.phase.res)) else v.rows)
  }

  lemma WriteLaw(v: JobState, r: RunnerId, ok: bool)
    requires JobInv(v) && r in v.team && v.team[r].phase.InFlight? && v.team[r].items != []
    ensures Law(Wrote(v, r, ok))
  {
    var p, w := v.team[r], Wrote(v, r, ok);
    var head := p.items[0].idx;
    assert MemberOk(v, p) && Untouched(v, Work(p)[0].idx);
    WindowMoved(v.team, r, w.team[r], v.entry.Some?, false);
    forall idx: nat | idx < |w.tallies| ensures LawAt(w, idx) {
      assert LawAt(v, idx);
    }
  }

  /** Items other than the one written are as untouched as before. */
  lemma UntouchedElsewhere(v: JobState, r: RunnerId, ok: bool, items: seq<BulkItem>)
    requires r in v.team && v.team[r].phase.InFlight? && v.team[r].items != []
    requires AllUntouched(v, items) && forall k :: 0 <= k < |items| ==> items[k].idx != v.team[r].items[0].idx
    ensures AllUntouched(Wrote(v, r, ok), items)
  {
    forall k | 0 <= k < |items| ensures Untouched(Wrote(v, r, ok), items[k].idx) {
      assert Untouched(v, items[k].idx);
    }
  }

  lemma WriterOk(v: JobState, r: RunnerId, ok: bool)
    requires r in v.team && v.team[r].phase.InFlight? && v.team[r].items != [] && MemberOk(v, v.team[r])
    ensures MemberOk(Wrote(v, r, ok), Wrote(v, r, ok).team[r])
  {
    var rest := v.team[r].items[1..];
    forall k | 0 <= k < |rest| ensures Untouched(v, rest[k].idx) && rest[k].idx != v.team[r].items[0].idx {
      assert Untouched(v, Work(v.team[r])[k + 1].idx);
    }
    UntouchedElsewhere(v, r, ok, rest);
  }

  lemma WriteRest(v: JobState, r: RunnerId, ok: bool)
    requires JobInv(v) && r in v.team && v.team[r].phase.InFlight? && v.team[r].items != []
    ensures TeamOk(Wrote(v, r, ok)) && EntryOk(Wrote(v, r, ok))
    ensures Exclusive(Wrote(v, r, ok).team, v.entry.Some?)
  {
    var w := Wrote(v, r, ok);
    assert MemberOk(v, v.team[r]);
    WriterOk(v, r, ok);
    forall q | q in w.team && q != r ensures MemberOk(w, w.team[q]) {
      assert Work(v.team[q]) == [] && MemberOk(v, v.team[q]);
    }
    ExclusiveKept(v.team, v.entry.Some?, r, w.team[r]);
  }

  lemma WriteKeeps(s: System, a: Action, id: JobId)
    requires JobInv(ViewOf(s, id)) && Step(s, a).Some? && Concerns(s, a, id) && a.WriteRow?
    ensures JobInv(ViewOf(Step(s, a).value, id))
  {
    WriteView(s, a, id);
    WriteLaw(ViewOf(s, id), a.runner, a.ok);
    WriteRest(ViewOf(s, id), a.runner, a.ok);
  }

  // ---- a new job, recovery, a crash ----

  lemma SubmitKeeps(s: System, a: Action)
    requires Base(s) && a.Submit? && Step(s, a).Some?
    ensures JobInv(ViewOf(Step(s, a).value, a.id))
  {
    SubmitView(s, a);
    var w := ViewOf(Step(s, a).value, a.id);
    var items := FreshItems(a.msgs);
    forall k | 0 <= k < |items| ensures Untouched(w, items[k].idx) {
      assert items[k].idx == k;
    }
  }

  /** A list gathered from the rows names untouched recipients only. */
  lemma ScanOk(v: JobState, row: JobRow)
    requires Law(v) && v.rows.Some? && |v.rows.value| == |v.tallies|
    ensures var entry := Resume(v.id, row, v.rows.value);
      Increasing(entry.pending) && AllUntouched(v, entry.pending)
  {
    var pending := PendingItems(v.rows.value);
    forall k | 0 <= k < |pending| ensures Untouched(v, pending[k].idx) {
      assert LawAt(v, pending[k].idx);
    }
  }

  /** Nobody in the team has work, so the job may join the recovery list. */
  lemma AwaitKeeps(v: JobState, entry: Resumable)
    requires JobInv(v) && Increasing(entry.pending) && AllUntouched(v, entry.pending)
    requires forall r :: r in v.team ==> Work(v.team[r]) == []
    ensures JobInv(v.(entry := Some(entry)))
  {
    var w := v.(entry := Some(entry));
    UntouchedKept(v, w, entry.pending);
    forall r | r in w.team ensures MemberOk(w, w.team[r]) {
      assert MemberOk(v, v.team[r]);
    }
    forall idx: nat | idx < |w.tallies| ensures LawAt(w, idx) {
      assert LawAt(v, idx);
    }
  }

  lemma ReadKeeps(s: System, id: JobId)
    requires Inv(s, id) && Step(s, ReadRows(id)).Some? && ReadSafe(s, id)
    ensures JobInv(ViewOf(Step(s, ReadRows(id)).value, id))
  {
    ReadView(s, id);
    var v := ViewOf(s, id);
    if !s.quit {
      ScanOk(v, s.heads[id]);
      assert forall r :: r in v.team ==> Work(v.team[r]) == [];
      AwaitKeeps(v, Resume(id, s.heads[id], v.rows.value));
    }
  }

  lemma StartKeeps(s: System, a: Action)
    requires a.ResumeStart? && Inv(s, a.id) && Step(s, a).Some?
    ensures JobInv(ViewOf(Step(s, a).value, a.id))
  {
    StartView(s, a);
    var v, w := ViewOf(s, a.id), ViewOf(Step(s, a).value, a.id);
    WindowsKept(v.team, a.runner, w.team[a.runner], v.id);
    TeamPlus(v, w, a.runner);
    forall idx: nat | idx < |w.tallies| ensures LawAt(w, idx) {
      assert LawAt(v, idx);
    }
  }

  lemma CrashKeeps(s: System, id: JobId)
    requires JobInv(ViewOf(s, id))
    ensures JobInv(ViewOf(AfterCrash(s), id))
  {
    CrashView(s, id);
    var v, w := ViewOf(s, id), ViewOf(AfterCrash(s), id);
    forall idx: nat | idx < |w.tallies| ensures LawAt(w, idx) {
      assert LawAt(v, idx) && !InFlightAt(w.team, w.id, idx);
    }
  }

  lemma ElsewhereKeeps(v: JobState, w: JobState)
    requires JobInv(v) && Unmoved(v, w)
    ensures JobInv(w)
  {
    forall r | r in w.team ensures MemberOk(w, w.team[r]) {
      UntouchedKept(v, w, Work(v.team[r]));
    }
    forall idx: nat | idx < |w.tallies| ensures LawAt(w, idx) {
      assert LawAt(v, idx);
    }
  }

  lemma RunnerKeeps(s: System, a: Action, id: JobId)
    requires JobInv(ViewOf(s, id)) && Step(s, a).Some? && Concerns(s, a, id) && OfRunner(a)
    ensures JobInv(ViewOf(Step(s, a).value, id))
  {
    if a.Attempt? {
      AttemptKeeps(s, a, id);
    } else if a.WriteRow? {
      WriteKeeps(s, a, id);
    } else {
      MoveKeeps(s, a, id);
    }
  }

  lemma ConcernKeeps(s: System, a: Action, id: JobId)
    requires Inv(s, id) && Step(s, a).Some? && Concerns(s, a, id)
    requires a == ReadRows(id) ==> ReadSafe(s, id)
    ensures JobInv(ViewOf(Step(s, a).value, id))
  {
    if OfRunner(a) {
      RunnerKeeps(s, a, id);
    } else if a.Submit? {
      SubmitKeeps(s, a);
    } else if a.ReadRows? {
      ReadKeeps(s, id);
    } else if a.ResumeStart? {
      StartKeeps(s, a);
    } else {
      CrashKeeps(s, id);
    }
  }

  /** Every step keeps the invariant of every job; reading a job's rows keeps its invariant when that is safe. */
  lemma StepKeeps(s: System, a: Action, id: JobId)
    requires Inv(s, id) && Step(s, a).Some?
    requires a == ReadRows(id) ==> ReadSafe(s, id)
    ensures Inv(Step(s, a).value, id)
  {
    BaseKeeps(s, a);
    if Concerns(s, a, id) {
      ConcernKeeps(s, a, id);
    } else {
      Elsewhere(s, a, id);
      ElsewhereKeeps(ViewOf(s, id), ViewOf(Step(s, a).value, id));
    }
  }

  lemma {:induction false} RunKeeps(acts: seq<Action>, id: JobId)
    requires SafeRun(Init(), acts, id) && Exec(Init(), acts).Some?
    ensures Inv(Exec(Init(), acts).value, id)
  {
    if acts != [] {
      var n := |acts| - 1;
      RunKeeps(acts[..n], id);
      StepKeeps(Exec(Init(), acts[..n]).value, acts[n], id);
    }
  }
}
