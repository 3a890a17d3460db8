/** The bulk sender as a labelled transition system over several process lifetimes.
    The tables survive a crash; processes, registry, quit flag and the recovery list do not. */
module BulkSteps {
  import opened Options
  import opened BulkTables

  /** Identity of one runner goroutine and the job object it owns. */
  type RunnerId = nat

  /** Where a runner stands. InFlight is the window between SendText and updateMessage;
      Written is the window between updateMessage and the locked memory update. */
  datatype Phase =
    | Unregistered
    | Starting
    | Idle
    | Checked
    | InFlight(res: BulkResult)
    | Written(res: BulkResult)
    | Finishing
    | Done

  datatype Runner = Runner(job: Snapshot, items: seq<BulkItem>, phase: Phase)

  /** Per-recipient bookkeeping that no crash erases: calls of SendText, items refused before it
      because the session is gone, outcomes lost to a crash or a failed write, those lost to a failed
      write alone, and outcomes written. */
  datatype Tally = Tally(sends: nat, refused: nat, lost: nat, failed: nat, written: nat)

  datatype System = System(
    db: Tables,
    runners: map<RunnerId, Runner>,
    registry: map<JobId, RunnerId>,
    heads: map<JobId, JobRow>,
    loaded: map<JobId, Resumable>,
    recovered: bool,
    quit: bool,
    audit: Audit)

  /** What one attempt meets: no session of that name, a send error, or a message id. */
  datatype Outcome = NoSession(reason: string) | SendError(reason: string) | Accepted(messageId: string)

  datatype Action =
    | Submit(runner: RunnerId, id: JobId, session: string, msgs: seq<BulkMessage>, now: int, ok: bool)
    | Register(runner: RunnerId, now: int)
    | Check(runner: RunnerId)
    | Attempt(runner: RunnerId, outcome: Outcome)
    | WriteRow(runner: RunnerId, ok: bool)
    | Settle(runner: RunnerId)
    | Finish(runner: RunnerId, now: int)
    | FinishWrite(runner: RunnerId, ok: bool)
    | Select
    | ReadRows(id: JobId)
    | ReadFails
    | Mark(now: int, ok: bool)
    | ResumeFinal(id: JobId, now: int, ok: bool)
    | ResumeSkip(id: JobId, now: int, ok: bool)
    | ResumeStart(runner: RunnerId, id: JobId)
    | StartWrite(runner: RunnerId, ok: bool)
    | DropLoaded
    | Quit
    | Crash

  function Init(): System {
    System(Tables(map[], map[]), map[], map[], map[], map[], false, false, map[])
  }

  function ResultOf(item: BulkItem, outcome: Outcome): BulkResult {
    match outcome
    case NoSession(reason) => BulkResult(item.to, Failed, "", reason)
    case SendError(reason) => BulkResult(item.to, Failed, "", reason)
    case Accepted(id) => BulkResult(item.to, Sent, id, "")
  }

  /** The result records the outcome: sent with the message id when the send was accepted, failed with
      the reason when there was no session or the send failed. */
  ghost predicate Says(res: BulkResult, outcome: Outcome) {
    match outcome
    case Accepted(messageId) => res.status == Sent && res.messageId == messageId && res.error == ""
    case SendError(reason) => res.status == Failed && res.messageId == "" && res.error == reason
    case NoSession(reason) => res.status == Failed && res.messageId == "" && res.error == reason
  }

  /** The locked update of the job object after an item. */
  function SettleJob(job: Snapshot, idx: nat, res: BulkResult): Snapshot {
    var results := if idx < |job.results| then job.results[idx := res] else job.results;
    if res.status.Sent? then job.(results := results, sent := job.sent + 1)
    else job.(results := results, failed := job.failed + 1)
  }

  /** The locked half of finish. */
  function FinishJob(job: Snapshot, status: JobStatus, now: int): Snapshot {
    if job.status.Running? then job.(status := status, finishedAt := now) else job
  }

  /** Jobs that cleanup drops from memory: finished more than one hour ago. */
  predicate Evictable(job: Snapshot, now: int) {
    !job.status.Running? && job.finishedAt > 0 && job.finishedAt < now - 3600
  }

  function Evict(s: System, now: int): System {
    s.(registry := map id | id in s.registry &&
      !(s.registry[id] in s.runners && Evictable(s.runners[s.registry[id]].job, now)) :: s.registry[id])
  }

  function Put(s: System, r: RunnerId, p: Runner): System {
    s.(runners := s.runners[r := p])
  }

  datatype Entry = Sends | Refused | Lost | Recorded

  function Credit(t: Tally, m: Entry): Tally {
    match m
    case Sends => t.(sends := t.sends + 1)
    case Refused => t.(refused := t.refused + 1)
    case Lost => t.(lost := t.lost + 1, failed := t.failed + 1)
    case Recorded => t.(written := t.written + 1)
  }

  type Audit = map<JobId, seq<Tally>>

  /** Adjusts the tally of one recipient. */
  function Bump(audit: Audit, id: JobId, idx: nat, m: Entry): Audit {
    if id in audit && idx < |audit[id]| then audit[id := audit[id][idx := Credit(audit[id][idx], m)]] else audit
  }

  ghost predicate InFlightBy(p: Runner, id: JobId, idx: nat) {
    p.phase.InFlight? && p.job.id == id && p.items != [] && p.items[0].idx == idx
  }

  /** Some runner has called SendText for this recipient and not yet written the row. */
  ghost predicate InFlightAt(runners: map<RunnerId, Runner>, id: JobId, idx: nat) {
    exists r :: r in runners && InFlightBy(runners[r], id, idx)
  }

  ghost function AfterCrash(s: System): System {
    System(s.db, map[], map[], map[], map[], false, false,
           map id | id in s.audit :: seq(|s.audit[id]|, i requires 0 <= i < |s.audit[id]| =>
             if InFlightAt(s.runners, id, i) then s.audit[id][i].(lost := s.audit[id][i].lost + 1)
             else s.audit[id][i]))
  }

  ghost function Step(s: System, a: Action): Option<System> {
    match a
    case Submit(r, id, session, msgs, now, ok) =>
      if r in s.runners || id in s.audit || msgs == [] then None else
        var job := FreshJob(id, session, msgs, now);
        var db := if ok then SaveJob(s.db, job, msgs) else s.db;
        Some(Put(s, r, Runner(job, FreshItems(msgs), Unregistered)).(
          db := db, audit := s.audit[id := seq(|msgs|, _ => Tally(0, 0, 0, 0, 0))]))
    case Register(r, now) =>
      if r !in s.runners || !s.runners[r].phase.Unregistered? then None else
        var p := s.runners[r];
        var e := Evict(s, now);
        Some(Put(e, r, p.(phase := Idle)).(registry := e.registry[p.job.id := r]))
    case Check(r) =>
      if r !in s.runners || !s.runners[r].phase.Idle? || s.runners[r].items == [] || s.quit then None else
        Some(Put(s, r, s.runners[r].(phase := Checked)))
    case Attempt(r, outcome) =>
      if r !in s.runners || !s.runners[r].phase.Checked? || s.runners[r].items == [] then None else
        var p := s.runners[r];
        Some(Put(s, r, p.(phase := InFlight(ResultOf(p.items[0], outcome)))).(
          audit := Bump(s.audit, p.job.id, p.items[0].idx, if outcome.NoSession? then Refused else Sends)))
    case WriteRow(r, ok) =>
      if r !in s.runners || !s.runners[r].phase.InFlight? || s.runners[r].items == [] then None else
        var p := s.runners[r];
        Some(Put(s, r, p.(phase := Written(p.phase.res))).(
          audit := Bump(s.audit, p.job.id, p.items[0].idx, if ok then Recorded else Lost),
          db := if ok then UpdateMessage(s.db, p.job.id, p.items[0].idx, p.phase.res) else s.db))
    case Settle(r) =>
      if r !in s.runners || !s.runners[r].phase.Written? || s.runners[r].items == [] then None else
        var p := s.runners[r];
        Some(Put(s, r, Runner(SettleJob(p.job, p.items[0].idx, p.phase.res), p.items[1..], Idle)))
    case Finish(r, now) =>
      if r !in s.runners || !s.runners[r].phase.Idle? || (s.runners[r].items != [] && !s.quit) then None else
        var p := s.runners[r];
        var status := if p.items == [] then Completed else Interrupted;
        Some(Put(s, r, p.(job := FinishJob(p.job, status, now), phase := Finishing)))
    case FinishWrite(r, ok) =>
      if r !in s.runners || !s.runners[r].phase.Finishing? then None else
        Some(Put(s, r, s.runners[r].(phase := Done)).(
          db := if ok then UpdateJob(s.db, s.runners[r].job) else s.db))
    case Select =>
      if s.recovered then None else Some(s.(recovered := true, heads := Unfinished(s.db)))
    case ReadRows(id) =>
      // a job read after the stop is never looked at
      if id !in s.heads || id !in s.db.messages then None else
        var entry := Resume(id, s.heads[id], s.db.messages[id]);
        Some(s.(heads := s.heads - {id}, loaded := if s.quit then s.loaded else s.loaded[id := entry]))
    case ReadFails =>
      if s.heads == map[] then None else Some(s.(heads := map[], loaded := map[]))
    case Mark(now, ok) =>
      if s.recovered then None else
        Some(s.(recovered := true, db := if ok then MarkInterrupted(s.db, now) else s.db))
    case ResumeFinal(id, now, ok) =>
      if s.heads != map[] || id !in s.loaded || s.loaded[id].pending != [] then None else
        var job := s.loaded[id].job.(status := Completed, finishedAt := now);
        Some(s.(loaded := s.loaded - {id}, db := if ok then UpdateJob(s.db, job) else s.db))
    case ResumeSkip(id, now, ok) =>
      if s.heads != map[] || id !in s.loaded || s.loaded[id].pending == [] then None else
        var job := s.loaded[id].job.(status := Interrupted, finishedAt := now);
        Some(s.(loaded := s.loaded - {id}, db := if ok then UpdateJob(s.db, job) else s.db))
    case ResumeStart(r, id) =>
      if s.heads != map[] || r in s.runners || id !in s.loaded || s.loaded[id].pending == [] then None else
        Some(Put(s, r, Runner(s.loaded[id].job, s.loaded[id].pending, Starting)).(
          loaded := s.loaded - {id}, registry := s.registry[id := r]))
    case StartWrite(r, ok) =>
      if r !in s.runners || !s.runners[r].phase.Starting? then None else
        Some(Put(s, r, s.runners[r].(phase := Idle)).(
          db := if ok then UpdateJob(s.db, s.runners[r].job) else s.db))
    case DropLoaded =>
      if !s.quit then None else Some(s.(loaded := map[]))
    case Quit => Some(s.(quit := true))
    case Crash => Some(AfterCrash(s))
  }

  /** The state after a whole run, or None when some action was not possible. */
  ghost function Exec(s: System, acts: seq<Action>): Option<System> {
    if acts == [] then Some(s) else
      var before := Exec(s, acts[..|acts| - 1]);
      if before.None? then None else Step(before.value, acts[|acts| - 1])
  }

  /** Items a runner may still attempt, from the one at its head on. */
  function Work(p: Runner): seq<BulkItem> {
    match p.phase
    case Finishing => []
    case Done => []
    case Written(_) => if p.items == [] then [] else p.items[1..]
    case _ => p.items
  }

  /** Recovery may read the rows of job id: no runner of this lifetime still has work on it, or the
      service is already stopping. */
  ghost predicate ReadSafe(s: System, id: JobId) {
    s.quit || forall r :: r in s.runners && s.runners[r].job.id == id ==> Work(s.runners[r]) == []
  }

  /** Whenever the run reads the rows of job id, that is safe. */
  ghost predicate SafeRun(s: System, acts: seq<Action>, id: JobId) {
    acts == [] ||
    (var n := |acts| - 1; var before := Exec(s, acts[..n]);
     && SafeRun(s, acts[..n], id)
     && (acts[n] == ReadRows(id) && before.Some? ==> ReadSafe(before.value, id)))
  }

  lemma {:induction false} ExecStep(s: System, acts: seq<Action>, a: Action)
    requires Exec(s, acts).Some?
    ensures Exec(s, acts + [a]) == Step(Exec(s, acts).value, a)
  {
    assert (acts + [a])[..|acts|] == acts;
  }

  lemma {:induction false} ExecConcat(s: System, first: seq<Action>, more: seq<Action>)
    requires Exec(s, first).Some?
    ensures Exec(s, first + more) == Exec(Exec(s, first).value, more)
  {
    if more == [] {
      assert first + more == first;
    } else {
      var n := |more| - 1;
      ExecConcat(s, first, more[..n]);
      var all := first + more;
      assert all[..|all| - 1] == first + more[..n] && all[|all| - 1] == more[n];
    }
  }

  /** Two steps in a row. */
  lemma ExecTwo(s: System, a: Action, b: Action)
    requires Step(s, a).Some?
    ensures Exec(s, [a, b]) == Step(Step(s, a).value, b)
  {
    assert [a, b] == [] + [a] + [b];
    ExecStep(s, [], a);
    ExecStep(s, [] + [a], b);
  }

  /** Four steps more. */
  lemma ExecFour(s: System, acts: seq<Action>, a: Action, b: Action, c: Action, d: Action, states: seq<System>)
    requires |states| == 5 && Exec(s, acts) == Some(states[0])
    requires Step(states[0], a) == Some(states[1]) && Step(states[1], b) == Some(states[2])
    requires Step(states[2], c) == Some(states[3]) && Step(states[3], d) == Some(states[4])
    ensures Exec(s, acts + [a, b, c, d]) == Some(states[4])
  {
    ExecStep(s, acts, a);
    ExecStep(s, acts + [a], b);
    ExecStep(s, acts + [a] + [b], c);
    ExecStep(s, acts + [a] + [b] + [c], d);
    assert acts + [a, b, c, d] == acts + [a] + [b] + [c] + [d];
  }
}
