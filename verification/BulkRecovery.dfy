/** Recovery selects the unfinished jobs first and reads the rows of each one later, while the API may
    already accept jobs and runners may already work. This module gives the exact condition under which
    reading one job's rows keeps its at-most-once bound for the rest of the lifetime. */
module BulkRecovery {
  import opened Options
  import opened BulkTables
  import opened BulkSteps
  import opened BulkJobs
  import opened BulkLaw

  ghost predicate Exceeded(s: System, id: JobId, idx: nat) {
    id in s.audit && idx < |s.audit[id]| &&
    s.audit[id][idx].sends + s.audit[id][idx].refused > 1 + s.audit[id][idx].lost
  }

  /** The bound for the recipients of one job: one attempt each, plus one for every lost outcome. */
  ghost predicate Bounded(s: System, id: JobId) {
    forall idx: nat :: !Exceeded(s, id, idx)
  }

  /** Anything the service may do before it next stops. */
  ghost predicate SameLifetime(acts: seq<Action>) {
    forall k :: 0 <= k < |acts| ==> !acts[k].Crash?
  }

  /** The rows of the job were read, or will not be read in this lifetime. */
  ghost predicate ReadOver(s: System, id: JobId) {
    s.recovered && id !in s.heads
  }

  lemma ReadOverStays(s: System, a: Action, id: JobId)
    requires ReadOver(s, id) && Step(s, a).Some? && !a.Crash?
    ensures ReadOver(Step(s, a).value, id) && a != ReadRows(id)
  {
    if OfRunner(a) {
      OneMoves(s, a);
    }
  }

  lemma {:induction false} InvForward(s: System, more: seq<Action>, id: JobId)
    requires Inv(s, id) && ReadOver(s, id) && SameLifetime(more) && Exec(s, more).Some?
    ensures Inv(Exec(s, more).value, id) && ReadOver(Exec(s, more).value, id)
  {
    if more != [] {
      var n := |more| - 1;
      InvForward(s, more[..n], id);
      ReadOverStays(Exec(s, more[..n]).value, more[n], id);
      StepKeeps(Exec(s, more[..n]).value, more[n], id);
    }
  }

  lemma LawBounds(v: JobState, idx: nat)
    requires JobInv(v) && idx < |v.tallies|
    ensures v.tallies[idx].sends + v.tallies[idx].refused <= 1 + v.tallies[idx].lost
  {
    assert LawAt(v, idx);
    NoWindowAfter(v, idx);
  }

  lemma InvBounded(s: System, id: JobId)
    requires Inv(s, id)
    ensures Bounded(s, id)
  {
    if id in s.audit {
      forall idx: nat | idx < |s.audit[id]| ensures !Exceeded(s, id, idx) {
        LawBounds(ViewOf(s, id), idx);
      }
    }
  }

  /** Attempts minus lost outcomes, for one recipient. */
  ghost function Excess(s: System, id: JobId, idx: nat): int
    requires id in s.audit && idx < |s.audit[id]|
  {
    s.audit[id][idx].sends + s.audit[id][idx].refused - s.audit[id][idx].lost
  }

  ghost predicate SameRecipient(s: System, t: System, id: JobId, idx: nat) {
    && id in s.audit && idx < |s.audit[id]|
    && id in t.audit && idx < |t.audit[id]| && t.audit[id][idx] == s.audit[id][idx]
  }

  /** An idle runner with work can attempt its head item while the service runs. */
  lemma AttemptNow(s: System, r: RunnerId, idx: nat) returns (more: seq<Action>, t: System)
    requires r in s.runners && s.runners[r].phase.Idle? && s.runners[r].items != [] && !s.quit
    requires s.runners[r].job.id in s.audit && idx < |s.audit[s.runners[r].job.id]|
    ensures SameLifetime(more) && Exec(s, more) == Some(t)
    ensures t.db == s.db && t.loaded == s.loaded && t.heads == s.heads && t.quit == s.quit
    ensures t.runners.Keys == s.runners.Keys
    ensures t.runners[r].phase.InFlight? && t.runners[r].items == s.runners[r].items
    ensures t.runners[r].job == s.runners[r].job
    ensures var id := s.runners[r].job.id;
      id in t.audit && |t.audit[id]| == |s.audit[id]| &&
      if idx == s.runners[r].items[0].idx then Excess(t, id, idx) == Excess(s, id, idx) + 1
      else t.audit[id][idx] == s.audit[id][idx]
  {
    var c := Step(s, Check(r)).value;
    var a := Attempt(r, SendError(""));
    t := Step(c, a).value;
    more := [Check(r), a];
    ExecTwo(s, Check(r), a);
  }

  /** An idle runner can deal with its head item completely. */
  lemma ItemNow(s: System, r: RunnerId, idx: nat) returns (more: seq<Action>, t: System)
    requires r in s.runners && s.runners[r].phase.Idle? && s.runners[r].items != [] && !s.quit
    requires s.runners[r].job.id in s.audit && idx < |s.audit[s.runners[r].job.id]|
    requires s.runners[r].items[0].idx != idx
    ensures SameLifetime(more) && Exec(s, more) == Some(t)
    ensures !t.quit && r in t.runners && t.runners[r].phase.Idle?
    ensures t.runners[r].items == s.runners[r].items[1..] && t.runners[r].job.id == s.runners[r].job.id
    ensures SameRecipient(s, t, s.runners[r].job.id, idx)
  {
    var first, u := AttemptNow(s, r, idx);
    var w, v := Conclude(u, r, idx);
    more, t := first + w, v;
    ExecConcat(s, first, w);
  }

  /** The action that takes a runner outside its window to the idle phase. */
  function ToIdle(phase: Phase, r: RunnerId): Action {
    match phase
    case Unregistered => Register(r, 0)
    case Starting => StartWrite(r, false)
    case _ => Settle(r)
  }

  predicate BecameIdle(s: System, t: System, r: RunnerId)
    requires r in s.runners
  {
    && t.quit == s.quit && t.loaded == s.loaded && t.heads == s.heads && t.audit == s.audit
    && r in t.runners && t.runners == s.runners[r := t.runners[r]]
    && t.runners[r].phase.Idle? && t.runners[r].items == Work(s.runners[r])
    && t.runners[r].job.id == s.runners[r].job.id
  }

  lemma RegisterToIdle(s: System, r: RunnerId)
    requires r in s.runners && s.runners[r].phase.Unregistered?
    ensures Step(s, Register(r, 0)).Some? && BecameIdle(s, Step(s, Register(r, 0)).value, r)
  {
  }

  lemma StartToIdle(s: System, r: RunnerId)
    requires r in s.runners && s.runners[r].phase.Starting?
    ensures Step(s, StartWrite(r, false)).Some? && BecameIdle(s, Step(s, StartWrite(r, false)).value, r)
  {
  }

  lemma SettleToIdle(s: System, r: RunnerId)
    requires r in s.runners && s.runners[r].phase.Written? && s.runners[r].items != []
    ensures Step(s, Settle(r)).Some? && BecameIdle(s, Step(s, Settle(r)).value, r)
  {
  }

  lemma WriteNow(s: System, r: RunnerId, idx: nat)
    requires r in s.runners && s.runners[r].phase.InFlight? && s.runners[r].items != []
    requires s.runners[r].job.id in s.audit && idx < |s.audit[s.runners[r].job.id]|
    requires s.runners[r].items[0].idx != idx
    ensures Step(s, WriteRow(r, true)).Some?
    ensures var w := Step(s, WriteRow(r, true)).value;
            && w.quit == s.quit && r in w.runners && w.runners[r].phase.Written?
            && w.runners[r].items == s.runners[r].items && w.runners[r].job == s.runners[r].job
            && SameRecipient(s, w, s.runners[r].job.id, idx)
  {
  }

  lemma Conclude(s: System, r: RunnerId, idx: nat) returns (more: seq<Action>, t: System)
    requires r in s.runners && s.runners[r].phase.InFlight? && s.runners[r].items != []
    requires s.runners[r].job.id in s.audit && idx < |s.audit[s.runners[r].job.id]|
    requires s.runners[r].items[0].idx != idx
    ensures SameLifetime(more) && Exec(s, more) == Some(t)
    ensures t.quit == s.quit && r in t.runners && t.runners[r].phase.Idle?
    ensures t.runners[r].items == s.runners[r].items[1..] && t.runners[r].job.id == s.runners[r].job.id
    ensures SameRecipient(s, t, s.runners[r].job.id, idx)
  {
    WriteNow(s, r, idx);
    var w := Step(s, WriteRow(r, true)).value;
    SettleToIdle(w, r);
    t := Step(w, Settle(r)).value;
    more := [WriteRow(r, true), Settle(r)];
    ExecTwo(s, WriteRow(r, true), Settle(r));
  }

  /** An idle runner can work its way to any item on its list, leaving that recipient alone. */
  lemma {:induction false} Drive(s: System, r: RunnerId, idx: nat) returns (more: seq<Action>, t: System)
    requires r in s.runners && s.runners[r].phase.Idle? && !s.quit && Listed(s.runners[r].items, idx)
    requires s.runners[r].job.id in s.audit && idx < |s.audit[s.runners[r].job.id]|
    ensures SameLifetime(more) && Exec(s, more) == Some(t)
    ensures !t.quit && r in t.runners && t.runners[r].phase.Idle? && t.runners[r].job.id == s.runners[r].job.id
    ensures t.runners[r].items != [] && t.runners[r].items[0].idx == idx
    ensures SameRecipient(s, t, s.runners[r].job.id, idx)
    decreases |s.runners[r].items|
  {
    var items := s.runners[r].items;
    if items[0].idx == idx {
      more, t := [], s;
    } else {
      var first, u := ItemNow(s, r, idx);
      ListedTail(items, idx);
      var rest, v := Drive(u, r, idx);
      more, t := first + rest, v;
      ExecConcat(s, first, rest);
    }
  }

  lemma ListedTail(items: seq<BulkItem>, idx: nat)
    requires Listed(items, idx) && items[0].idx != idx
    ensures Listed(items[1..], idx)
  {
    var k :| 0 <= k < |items| && items[k].idx == idx;
    assert items[1..][k - 1].idx == idx;
  }

  /** The invariant of the job with its place on the recovery list set aside. */
  ghost predicate TeamInv(s: System, id: JobId) {
    JobInv(ViewOf(s, id).(entry := None))
  }

  lemma OneStepToIdle(s: System, r: RunnerId) returns (t: System)
    requires r in s.runners && Work(s.runners[r]) != []
    requires s.runners[r].phase.Unregistered? || s.runners[r].phase.Starting? || s.runners[r].phase.Written?
    ensures Step(s, ToIdle(s.runners[r].phase, r)) == Some(t) && BecameIdle(s, t, r)
  {
    t := Step(s, ToIdle(s.runners[r].phase, r)).value;
    match s.runners[r].phase
    case Unregistered => RegisterToIdle(s, r);
    case Starting => StartToIdle(s, r);
    case Written(_) => SettleToIdle(s, r);
  }

  /** One step, at most, takes a runner outside its window to the idle phase. */
  lemma ReachIdle(s: System, r: RunnerId) returns (more: seq<Action>, t: System)
    requires r in s.runners && Work(s.runners[r]) != [] && !s.quit
    requires !s.runners[r].phase.InFlight? && !s.runners[r].phase.Checked?
    ensures SameLifetime(more) && Exec(s, more) == Some(t) && BecameIdle(s, t, r)
  {
    if s.runners[r].phase.Idle? {
      more, t := [], s;
    } else {
      t := OneStepToIdle(s, r);
      more := [] + [ToIdle(s.runners[r].phase, r)];
      ExecStep(s, [], ToIdle(s.runners[r].phase, r));
    }
  }

  /** A runner's next item has no outcome; its attempts exceed its lost outcomes by the open window only. */
  lemma NextItem(s: System, r: RunnerId, id: JobId)
    requires TeamInv(s, id) && r in s.runners && s.runners[r].job.id == id && Work(s.runners[r]) != []
    ensures var p := s.runners[r]; var idx := Work(p)[0].idx;
      && Untouched(ViewOf(s, id), idx) && id in s.audit && idx < |s.audit[id]|
      && Excess(s, id, idx) == One(p.phase.InFlight?)
      && (p.phase.Checked? || p.phase.InFlight? ==> p.items == Work(p))
  {
    var v := ViewOf(s, id).(entry := None);
    var p := s.runners[r];
    var idx := Work(p)[0].idx;
    assert r in v.team && v.team[r] == p;
    assert MemberOk(v, p) && Untouched(v, idx) && LawAt(v, idx);
    if p.phase.InFlight? {
      assert InFlightBy(p, id, idx);
    } else {
      forall q | q in v.team ensures !InFlightBy(v.team[q], id, idx) {
        assert q != r ==> Work(v.team[q]) == [];
      }
    }
  }

  lemma AttemptChecked(s: System, r: RunnerId) returns (more: seq<Action>, t: System)
    requires r in s.runners && s.runners[r].phase.Checked? && s.runners[r].items != []
    requires var id, idx := s.runners[r].job.id, s.runners[r].items[0].idx; id in s.audit && idx < |s.audit[id]|
    ensures SameLifetime(more) && Exec(s, more) == Some(t)
    ensures t.quit == s.quit && t.loaded == s.loaded && t.heads == s.heads && t.runners.Keys == s.runners.Keys
    ensures var id, idx := s.runners[r].job.id, s.runners[r].items[0].idx;
      id in t.audit && idx < |t.audit[id]| && Excess(t, id, idx) == Excess(s, id, idx) + 1
  {
    var a := Attempt(r, SendError(""));
    t := Step(s, a).value;
    ExecStep(s, [], a);
    more := [] + [a];
  }

  /** A runner with work reaches the window of its next item without touching the recovery list. */
  lemma ReachWindow(s: System, r: RunnerId, id: JobId) returns (more: seq<Action>, t: System)
    requires TeamInv(s, id) && r in s.runners && s.runners[r].job.id == id && Work(s.runners[r]) != [] && !s.quit
    ensures SameLifetime(more) && Exec(s, more) == Some(t)
    ensures !t.quit && t.loaded == s.loaded && t.heads == s.heads && t.runners.Keys == s.runners.Keys
    ensures var idx := Work(s.runners[r])[0].idx;
      id in t.audit && idx < |t.audit[id]| && Excess(t, id, idx) == 1
  {
    NextItem(s, r, id);
    var phase := s.runners[r].phase;
    if phase.InFlight? {
      more, t := [], s;
    } else if phase.Checked? {
      more, t := AttemptChecked(s, r);
    } else {
      var first, u := ReachIdle(s, r);
      var rest, v := AttemptNow(u, r, Work(s.runners[r])[0].idx);
      more, t := first + rest, v;
      ExecConcat(s, first, rest);
    }
  }

  /** There is always a runner identity nobody has used. */
  lemma {:induction false} FreshRunner(used: set<RunnerId>) returns (r: RunnerId)
    ensures forall q :: q in used ==> q < r
  {
    r := 0;
    if used != {} {
      var q :| q in used;
      var m := FreshRunner(used - {q});
      r := if m > q then m else q + 1;
      assert forall p :: p in used ==> p == q || p in used - {q};
    }
  }

  lemma ResumeNow(s: System, r: RunnerId, id: JobId)
    requires s.heads == map[] && r !in s.runners && id in s.loaded && s.loaded[id].pending != []
    ensures Step(s, ResumeStart(r, id)).Some?
    ensures var t := Step(s, ResumeStart(r, id)).value;
            && t.quit == s.quit && t.audit == s.audit && r in t.runners && t.runners[r].phase.Starting?
            && t.runners[r].items == s.loaded[id].pending && t.runners[r].job == s.loaded[id].job
  {
  }

  /** A job on the recovery list gets a new runner. */
  lemma Begin(s: System, id: JobId) returns (more: seq<Action>, t: System, r: RunnerId)
    requires s.heads == map[] && id in s.loaded && s.loaded[id].job.id == id && s.loaded[id].pending != []
    ensures SameLifetime(more) && Exec(s, more) == Some(t)
    ensures t.quit == s.quit && t.audit == s.audit && r in t.runners && t.runners[r].phase.Idle?
    ensures t.runners[r].items == s.loaded[id].pending && t.runners[r].job.id == id
  {
    r := FreshRunner(s.runners.Keys);
    var a, b := ResumeStart(r, id), StartWrite(r, false);
    ResumeNow(s, r, id);
    var u := Step(s, a).value;
    StartToIdle(u, r);
    t := Step(u, b).value;
    ExecTwo(s, a, b);
    more := [a, b];
  }

  /** Recovery reads the rows of every job it selected. */
  lemma {:induction false} ReadOthers(s: System, id: JobId) returns (more: seq<Action>, t: System)
    requires Base(s) && !s.quit && id in s.loaded && id !in s.heads
    ensures SameLifetime(more) && Exec(s, more) == Some(t)
    ensures t.heads == map[] && id in t.loaded && t.loaded[id] == s.loaded[id]
    ensures t.db == s.db && t.runners == s.runners && t.audit == s.audit && !t.quit
    decreases |s.heads|
  {
    if s.heads == map[] {
      more, t := [], s;
    } else {
      var j :| j in s.heads;
      var u := Step(s, ReadRows(j)).value;
      BaseKeeps(s, ReadRows(j));
      assert u.heads.Keys == s.heads.Keys - {j};
      ExecStep(s, [], ReadRows(j));
      var rest, v := ReadOthers(u, id);
      ExecConcat(s, [] + [ReadRows(j)], rest);
      more, t := [] + [ReadRows(j)] + rest, v;
    }
  }

  /** A second runner is started from the recovery list and driven to the same recipient. */
  lemma SecondRunner(s: System, id: JobId, idx: nat) returns (more: seq<Action>, t: System)
    requires !s.quit && s.heads == map[] && id in s.loaded && s.loaded[id].job.id == id
    requires Listed(s.loaded[id].pending, idx) && id in s.audit && idx < |s.audit[id]|
    ensures SameLifetime(more) && Exec(s, more) == Some(t)
    ensures id in t.audit && idx < |t.audit[id]| && Excess(t, id, idx) == Excess(s, id, idx) + 1
  {
    var start, v, r := Begin(s, id);
    var drive, w := Drive(v, r, idx);
    var last, x := AttemptNow(w, r, idx);
    ExecConcat(s, start, drive);
    ExecConcat(s, start + drive, last);
    more, t := start + drive + last, x;
  }

  /** Two runners on one recipient: the one at work and one started from the recovery list. */
  lemma TwoRunners(s: System, r: RunnerId, id: JobId, idx: nat) returns (more: seq<Action>, t: System)
    requires TeamInv(s, id) && !s.quit && s.heads == map[]
    requires r in s.runners && s.runners[r].job.id == id && Work(s.runners[r]) != [] && idx == Work(s.runners[r])[0].idx
    requires id in s.loaded && s.loaded[id].job.id == id && Listed(s.loaded[id].pending, idx)
    ensures SameLifetime(more) && Exec(s, more) == Some(t) && Exceeded(t, id, idx)
  {
    var first, u := ReachWindow(s, r, id);
    var rest, w := SecondRunner(u, id, idx);
    more, t := first + rest, w;
    ExecConcat(s, first, rest);
  }

  /** What reading the rows does while the service runs: the job joins the list, with the item its
      runner has next. */
  lemma AfterRead(s: System, r: RunnerId, id: JobId)
    requires Inv(s, id) && Step(s, ReadRows(id)).Some? && !s.quit
    requires r in s.runners && s.runners[r].job.id == id && Work(s.runners[r]) != []
    ensures var t := Step(s, ReadRows(id)).value;
      && Base(t) && TeamInv(t, id) && !t.quit && id !in t.heads
      && t.runners == s.runners && t.db == s.db && t.audit == s.audit
      && id in t.loaded && t.loaded[id].job.id == id && Listed(t.loaded[id].pending, Work(s.runners[r])[0].idx)
  {
    BaseKeeps(s, ReadRows(id));
    ReadView(s, id);
    ElsewhereKeeps(ViewOf(s, id), ViewOf(s, id).(entry := None));
    NextItem(s, r, id);
    PendingListed(s.db.messages[id], Work(s.runners[r])[0].idx);
  }

  /** TeamInv looks at rows, tallies and runners only. */
  lemma TeamInvSame(s: System, t: System, id: JobId)
    requires TeamInv(s, id) && t.db == s.db && t.runners == s.runners && t.audit == s.audit
    ensures TeamInv(t, id)
  {
    assert ViewOf(t, id).(entry := None) == ViewOf(s, id).(entry := None);
  }

  /** An unsafe read lets the same recipient be attempted once too often before the service stops. */
  lemma UnsafeReadRepeats(s: System, id: JobId) returns (more: seq<Action>, idx: nat)
    requires Inv(s, id) && Step(s, ReadRows(id)).Some? && !ReadSafe(s, id)
    ensures SameLifetime(more) && Exec(Step(s, ReadRows(id)).value, more).Some?
    ensures Exceeded(Exec(Step(s, ReadRows(id)).value, more).value, id, idx)
  {
    var r :| r in s.runners && s.runners[r].job.id == id && Work(s.runners[r]) != [];
    idx := Work(s.runners[r])[0].idx;
    AfterRead(s, r, id);
    var t := Step(s, ReadRows(id)).value;
    var first, u := ReadOthers(t, id);
    TeamInvSame(t, u, id);
    var rest, v := TwoRunners(u, r, id, idx);
    ExecConcat(t, first, rest);
    more := first + rest;
  }

  /** The bound holds for the rest of the lifetime, whatever happens in it. */
  ghost predicate BoundedForLifetime(s: System, id: JobId) {
    forall more :: SameLifetime(more) && Exec(s, more).Some? ==> Bounded(Exec(s, more).value, id)
  }

  lemma InvBoundedForLifetime(s: System, id: JobId)
    requires Inv(s, id) && ReadOver(s, id)
    ensures BoundedForLifetime(s, id)
  {
    forall more | SameLifetime(more) && Exec(s, more).Some? ensures Bounded(Exec(s, more).value, id) {
      InvForward(s, more, id);
      InvBounded(Exec(s, more).value, id);
    }
  }

  lemma UnsafeReadUnbounded(s: System, id: JobId)
    requires Inv(s, id) && Step(s, ReadRows(id)).Some? && !ReadSafe(s, id)
    ensures !BoundedForLifetime(Step(s, ReadRows(id)).value, id)
  {
    var more, idx := UnsafeReadRepeats(s, id);
    assert !Bounded(Exec(Step(s, ReadRows(id)).value, more).value, id);
  }

  /** Reading the rows of a selected job keeps its at-most-once bound for the rest of the lifetime
      exactly when no runner of this lifetime still has work on it, or the service is stopping. */
  lemma ReadSafeExactly(s: System, id: JobId)
    requires Inv(s, id) && Step(s, ReadRows(id)).Some?
    ensures ReadSafe(s, id) <==> BoundedForLifetime(Step(s, ReadRows(id)).value, id)
  {
    if ReadSafe(s, id) {
      StepKeeps(s, ReadRows(id), id);
      assert s.recovered;
      InvBoundedForLifetime(Step(s, ReadRows(id)).value, id);
    } else {
      UnsafeReadUnbounded(s, id);
    }
  }

  // ---- when every read of a lifetime is safe ----

  /** No runner has work on a selected job whose rows are still to be read. */
  ghost predicate HeadsFree(s: System) {
    s.quit || forall r :: r in s.runners && s.runners[r].job.id in s.heads ==> Work(s.runners[r]) == []
  }

  lemma WorkShrinks(s: System, a: Action)
    requires Step(s, a).Some? && OfRunner(a)
    ensures a.runner in s.runners && a.runner in Step(s, a).value.runners
    ensures Work(s.runners[a.runner]) == [] ==> Work(Step(s, a).value.runners[a.runner]) == []
  {
  }

  lemma HeadsStayFree(s: System, a: Action)
    requires Base(s) && s.recovered && HeadsFree(s) && Step(s, a).Some? && !a.Crash?
    ensures HeadsFree(Step(s, a).value) && Step(s, a).value.recovered
  {
    if OfRunner(a) {
      WorkShrinks(s, a);
      OneMoves(s, a);
    }
  }

  /** Recovery selects while no runner has work on a job it selects, or the service is stopping. */
  ghost predicate SelectSafe(s: System) {
    s.quit || forall r :: r in s.runners && s.runners[r].job.id in Unfinished(s.db) ==> Work(s.runners[r]) == []
  }

  /** When the selection is safe, so is every read of the lifetime, whatever is submitted in between. */
  lemma {:induction false} SelectionDecides(s: System, more: seq<Action>, id: JobId)
    requires Base(s) && Step(s, Select).Some? && SelectSafe(s)
    requires SameLifetime(more) && Exec(Step(s, Select).value, more).Some?
    ensures SafeRun(Step(s, Select).value, more, id)
    ensures var t := Exec(Step(s, Select).value, more).value; Base(t) && t.recovered && HeadsFree(t)
  {
    var u := Step(s, Select).value;
    if more == [] {
      BaseKeeps(s, Select);
    } else {
      var n := |more| - 1;
      SelectionDecides(s, more[..n], id);
      var t := Exec(u, more[..n]).value;
      BaseKeeps(t, more[n]);
      HeadsStayFree(t, more[n]);
    }
  }

  /** The failing family is reachable: any job accepted before recovery selects. */
  lemma SubmitBeforeSelectIsUnsafe(id: JobId, session: string, msgs: seq<BulkMessage>, now: int)
    requires msgs != []
    ensures var acts := [Submit(0, id, session, msgs, now, true), Select];
      && Exec(Init(), acts).Some? && SafeRun(Init(), acts, id)
      && var s := Exec(Init(), acts).value; Step(s, ReadRows(id)).Some? && !ReadSafe(s, id)
  {
    var a := Submit(0, id, session, msgs, now, true);
    var s := Step(Init(), a).value;
    ExecTwo(Init(), a, Select);
    assert [a, Select][..1] == [a] && [a][..0] == [];
    assert Work(s.runners[0]) == FreshItems(msgs);
    var t := Step(s, Select).value;
    assert t.runners[0].job.id == id && |Work(t.runners[0])| == |msgs|;
  }
}
