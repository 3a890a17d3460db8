/** The bulk runner as the program has it: job objects in a map, tables behind SQL statements,
    and loops. Each method is tied to the step relation or to the table functions. */
module BulkRunner {
  import opened Options
  import opened BulkTables
  import opened BulkSteps
  import Template

  datatype Recipient = Recipient(to: string, text: string, vars: map<string, string>)

  datatype BulkRequest = BulkRequest(
    session: string, to: seq<string>, text: string, template: string, messages: seq<Recipient>)

  datatype SubmitError = NoSuchSession | NoRecipients | EmptyRecipient(index: nat) | NoMessage(index: nat)

  datatype SubmitResult = Submitted(job: Snapshot) | Rejected(error: SubmitError)

  /** The recipients of a request: its messages, or its bare list when there are none. */
  function Recipients(req: BulkRequest): seq<Recipient> {
    if req.messages != [] then req.messages
    else seq(|req.to|, i requires 0 <= i < |req.to| => Recipient(req.to[i], "", map[]))
  }

  /** Own text first, then the rendered template, then the shared text. */
  function FinalText(req: BulkRequest, m: Recipient): string {
    var rendered := if m.text == "" && req.template != "" then Template.RenderTemplate(req.template, m.vars)
      else m.text;
    if rendered == "" then req.text else rendered
  }

  /** The messages of a valid request, texts resolved. */
  function Resolved(req: BulkRequest): seq<BulkMessage> {
    seq(|Recipients(req)|, i requires 0 <= i < |Recipients(req)| =>
      BulkMessage(Recipients(req)[i].to, FinalText(req, Recipients(req)[i])))
  }

  function SessionName(req: BulkRequest): string {
    if req.session == "" then "default" else req.session
  }

  /** The recipient has a number, and a text from somewhere. */
  predicate Sendable(req: BulkRequest, m: Recipient) {
    m.to != "" &&
    (m.text != "" || req.text != "" || (req.template != "" && Template.RenderTemplate(req.template, m.vars) != ""))
  }

  /** The recipients a request names: its messages, or its bare list when there are none. */
  ghost predicate AreRecipients(req: BulkRequest, recipients: seq<Recipient>) {
    if |req.messages| > 0 then recipients == req.messages
    else |recipients| == |req.to| && forall i :: 0 <= i < |req.to| ==> recipients[i] == Recipient(req.to[i], "", map[])
  }

  /** The text is the recipient's own if there is one, else the rendered template if that says anything,
      else the shared text of the request. */
  predicate IsTextFor(text: string, req: BulkRequest, m: Recipient) {
    if m.text != "" then text == m.text
    else if req.template != "" && Template.RenderTemplate(req.template, m.vars) != "" then
      text == Template.RenderTemplate(req.template, m.vars)
    else text == req.text
  }

  /** The new job has one pending result and one item for each recipient, in order, with the recipient's
      address and text, and nothing sent yet. */
  ghost predicate IsNewJob(job: Snapshot, items: seq<BulkItem>, id: JobId, req: BulkRequest, recipients: seq<Recipient>,
                     now: int) {
    && job.id == id && job.session == (if req.session == "" then "default" else req.session)
    && job.status == Running && job.startedAt == now && job.finishedAt == 0 && job.sent == 0 && job.failed == 0
    && job.total == |recipients| == |items| == |job.results|
    && forall i :: 0 <= i < |items| ==>
         && items[i].idx == i && items[i].to == recipients[i].to && IsTextFor(items[i].text, req, recipients[i])
         && job.results[i] == BulkResult(recipients[i].to, Pending, "", "")
  }

  /** The new job and its recipients are in the tables; other jobs are as before. */
  ghost predicate IsPersisted(before: Tables, after: Tables, job: Snapshot, items: seq<BulkItem>) {
    && after.jobs == before.jobs[job.id := JobRow(
         job.session, job.status, job.total, job.sent, job.failed, job.startedAt, job.finishedAt)]
    && job.id in after.messages && after.messages - {job.id} == before.messages - {job.id}
    && |after.messages[job.id]| == |items| == |job.results|
    && forall i :: 0 <= i < |items| ==> after.messages[job.id][i] == MsgRow(job.results[i], items[i].text)
  }

  lemma SubmittedIsNew(req: BulkRequest, id: JobId, now: int, db: Tables)
    ensures var job := FreshJob(id, SessionName(req), Resolved(req), now);
      && IsNewJob(job, FreshItems(Resolved(req)), id, req, Recipients(req), now)
      && IsPersisted(db, SaveJob(db, job, Resolved(req)), job, FreshItems(Resolved(req)))
  {
    var msgs := Resolved(req);
    var job := FreshJob(id, SessionName(req), msgs, now);
    assert SaveJob(db, job, msgs).messages - {id} == db.messages - {id};
  }

  /** What one pass of the runner's loop meets: the send outcome and whether the row write succeeds. */
  datatype Pass = Pass(outcome: Outcome, ok: bool)

  /** How many of the first n passes had their send accepted. */
  function AcceptedPasses(passes: seq<Pass>, n: nat): nat
    requires n <= |passes|
  {
    if n == 0 then 0 else AcceptedPasses(passes, n - 1) + if passes[n - 1].outcome.Accepted? then 1 else 0
  }

  ghost predicate DistinctItems(items: seq<BulkItem>) {
    forall k, l :: 0 <= k < l < |items| ==> items[k].idx != items[l].idx
  }

  /** After n passes the job's counters have gone up by the sends accepted and the others, and each
      recipient attempted has the result that its own pass says. */
  ghost predicate Tallied(before: Snapshot, after: Snapshot, items: seq<BulkItem>, passes: seq<Pass>, n: nat)
    requires n <= |items| == |passes|
  {
    && after.sent == before.sent + AcceptedPasses(passes, n)
    && after.failed == before.failed + n - AcceptedPasses(passes, n)
    && |after.results| == |before.results|
    && (DistinctItems(items) ==> forall k :: 0 <= k < n && items[k].idx < |after.results| ==>
          Says(after.results[items[k].idx], passes[k].outcome))
  }

  /** The job after n passes. */
  function JobAfter(job: Snapshot, items: seq<BulkItem>, passes: seq<Pass>, n: nat): (after: Snapshot)
    requires n <= |items| == |passes|
    ensures after.id == job.id && after.status == job.status && after.finishedAt == job.finishedAt
  {
    if n == 0 then job else
      SettleJob(JobAfter(job, items, passes, n - 1), items[n - 1].idx, ResultOf(items[n - 1], passes[n - 1].outcome))
  }

  /** The tables after n passes. */
  function TablesAfter(db: Tables, id: JobId, items: seq<BulkItem>, passes: seq<Pass>, n: nat): Tables
    requires n <= |items| == |passes|
  {
    if n == 0 then db else
      var before := TablesAfter(db, id, items, passes, n - 1);
      if passes[n - 1].ok
      then UpdateMessage(before, id, items[n - 1].idx, ResultOf(items[n - 1], passes[n - 1].outcome)) else before
  }

  lemma {:induction false} TalliedAfter(job: Snapshot, items: seq<BulkItem>, passes: seq<Pass>, n: nat)
    requires n <= |items| == |passes|
    ensures Tallied(job, JobAfter(job, items, passes, n), items, passes, n)
  {
    if n > 0 {
      TalliedAfter(job, items, passes, n - 1);
    }
  }

  /** The labelled steps of n passes of runner r. */
  function PassActions(r: RunnerId, passes: seq<Pass>, n: nat): seq<Action>
    requires n <= |passes|
  {
    if n == 0 then [] else
      PassActions(r, passes, n - 1)
      + [Check(r), Attempt(r, passes[n - 1].outcome), WriteRow(r, passes[n - 1].ok), Settle(r)]
  }

  /** The four steps of one pass, from check to settlement. */
  lemma PassSteps(u: System, r: RunnerId, pass: Pass) returns (c: System, d: System, e: System, t: System)
    requires r in u.runners && u.runners[r].phase.Idle? && u.runners[r].items != [] && !u.quit
    ensures Step(u, Check(r)) == Some(c) && Step(c, Attempt(r, pass.outcome)) == Some(d)
    ensures Step(d, WriteRow(r, pass.ok)) == Some(e) && Step(e, Settle(r)) == Some(t)
    ensures var p := u.runners[r]; var item := p.items[0]; var res := ResultOf(item, pass.outcome);
      && t.runners == u.runners[r := Runner(SettleJob(p.job, item.idx, res), p.items[1..], Idle)]
      && t.db == (if pass.ok then UpdateMessage(u.db, p.job.id, item.idx, res) else u.db)
      && t.quit == u.quit && t.registry == u.registry && t.loaded == u.loaded && t.recovered == u.recovered
  {
    c := Step(u, Check(r)).value;
    d := Step(c, Attempt(r, pass.outcome)).value;
    e := Step(d, WriteRow(r, pass.ok)).value;
    t := Step(e, Settle(r)).value;
  }

  /** One pass of an idle runner while the service is not stopping. */
  lemma PassExec(s: System, acts: seq<Action>, u: System, r: RunnerId, pass: Pass)
    requires Exec(s, acts) == Some(u)
    requires r in u.runners && u.runners[r].phase.Idle? && u.runners[r].items != [] && !u.quit
    ensures var p := u.runners[r]; var item := p.items[0]; var res := ResultOf(item, pass.outcome);
      var more := acts + [Check(r), Attempt(r, pass.outcome), WriteRow(r, pass.ok), Settle(r)];
      && Exec(s, more).Some?
      && var t := Exec(s, more).value;
         && t.runners == u.runners[r := Runner(SettleJob(p.job, item.idx, res), p.items[1..], Idle)]
         && t.db == (if pass.ok then UpdateMessage(u.db, p.job.id, item.idx, res) else u.db)
         && t.quit == u.quit && t.registry == u.registry && t.loaded == u.loaded && t.recovered == u.recovered
  {
    var c, d, e, t := PassSteps(u, r, pass);
    ExecFour(s, acts, Check(r), Attempt(r, pass.outcome), WriteRow(r, pass.ok), Settle(r), [u, c, d, e, t]);
  }

  /** The state after one more pass. */
  lemma PassNext(s: System, u: System, r: RunnerId, passes: seq<Pass>, n: nat) returns (t: System)
    requires n < |passes| && Exec(s, PassActions(r, passes, n)) == Some(u)
    requires r in u.runners && u.runners[r].phase.Idle? && u.runners[r].items != [] && !u.quit
    ensures Exec(s, PassActions(r, passes, n + 1)) == Some(t) && !t.quit
    ensures var p := u.runners[r]; var item := p.items[0]; var res := ResultOf(item, passes[n].outcome);
      && t.runners == u.runners[r := Runner(SettleJob(p.job, item.idx, res), p.items[1..], Idle)]
      && t.db == (if passes[n].ok then UpdateMessage(u.db, p.job.id, item.idx, res) else u.db)
  {
    PassExec(s, PassActions(r, passes, n), u, r, passes[n]);
    t := Exec(s, PassActions(r, passes, n + 1)).value;
  }

  class BulkJob {
    const id: JobId
    const session: string
    const total: nat
    const startedAt: int
    var status: JobStatus
    var sent: nat
    var failed: nat
    var finishedAt: int
    var results: seq<BulkResult>

    constructor (snap: Snapshot)
      ensures Value() == snap
    {
      id, session, total, startedAt := snap.id, snap.session, snap.total, snap.startedAt;
      status, sent, failed, finishedAt := snap.status, snap.sent, snap.failed, snap.finishedAt;
      results := snap.results;
    }

    /** The deep copy handed to callers. */
    function Value(): Snapshot
      reads this
    {
      Snapshot(id, session, status, total, sent, failed, startedAt, finishedAt, results)
    }
  }

  /** The job's row has the job's status, counters and finish time when the write succeeds, and keeps its
      other columns; nothing else in the job table changes. */
  ghost predicate RowWritten(before: Tables, after: Tables, id: JobId, job: Snapshot, ok: bool) {
    && after.jobs.Keys == before.jobs.Keys
    && (forall j :: j in before.jobs && (j != id || !ok) ==> after.jobs[j] == before.jobs[j])
    && (id in before.jobs && ok ==>
         var was, row := before.jobs[id], after.jobs[id];
         && row.status == job.status && row.sent == job.sent && row.failed == job.failed
         && row.finishedAt == job.finishedAt && row.session == was.session && row.total == was.total
         && row.startedAt == was.startedAt)
  }

  /** The rows of the jobs that recovery has dealt with, and of those it has not. */
  ghost predicate Resumed(before: Tables, after: Tables, handled: set<JobId>, started: map<JobId, seq<BulkItem>>,
                    entries: map<JobId, Resumable>, now: int, ok: JobId -> bool)
    requires handled <= entries.Keys
  {
    && after.messages == before.messages && after.jobs.Keys == before.jobs.Keys
    && forall id :: id in before.jobs ==>
         var was, row := before.jobs[id], after.jobs[id];
         if id !in handled || !ok(id) then row == was
         else if id in started then row.status == Running && row.finishedAt == 0
         else row.finishedAt == now && row.status == if entries[id].pending == [] then Completed else Interrupted
  }

  /** Exactly the jobs dealt with that have pending recipients and a ready session run again, with those. */
  ghost predicate StartedAre(started: map<JobId, seq<BulkItem>>, handled: set<JobId>, entries: map<JobId, Resumable>,
                       ready: JobId -> bool)
    requires handled <= entries.Keys
  {
    && (forall id :: id in started <==> id in handled && ready(id) && entries[id].pending != [])
    && (forall id :: id in started ==> started[id] == entries[id].pending)
  }

  lemma StartedNext(started: map<JobId, seq<BulkItem>>, handled: set<JobId>, entries: map<JobId, Resumable>,
                    ready: JobId -> bool, id: JobId)
    requires handled <= entries.Keys && id in entries && StartedAre(started, handled, entries, ready)
    ensures StartedAre(if entries[id].pending != [] && ready(id) then started[id := entries[id].pending] else started,
                       handled + {id}, entries, ready)
  {
  }

  /** Memory has the jobs it had and those that run again, which replace what it had of them. */
  ghost predicate Joined(before: map<JobId, BulkJob>, after: map<JobId, BulkJob>, started: map<JobId, seq<BulkItem>>) {
    && (forall id :: id in after <==> id in before || id in started)
    && (forall id :: id in before && id !in started ==> after[id] == before[id])
    && (forall id :: id in started ==> after[id].id == id)
  }

  lemma JoinedNext(before: map<JobId, BulkJob>, mid: map<JobId, BulkJob>, started: map<JobId, seq<BulkItem>>,
                   id: JobId, job: BulkJob, items: seq<BulkItem>)
    requires Joined(before, mid, started) && job.id == id
    ensures Joined(before, mid[id := job], started[id := items])
  {
  }

  lemma ResumedNext(before: Tables, mid: Tables, after: Tables, handled: set<JobId>,
                    started: map<JobId, seq<BulkItem>>, entries: map<JobId, Resumable>, now: int, ok: JobId -> bool,
                    id: JobId, runs: bool, job: Snapshot)
    requires handled <= entries.Keys && id in entries && id !in handled && id !in started
    requires Resumed(before, mid, handled, started, entries, now, ok)
    requires after.messages == mid.messages && RowWritten(mid, after, id, job, ok(id))
    requires if runs then job.status == Running && job.finishedAt == 0
             else job.finishedAt == now && job.status == if entries[id].pending == [] then Completed else Interrupted
    ensures Resumed(before, after, handled + {id}, if runs then started[id := entries[id].pending] else started,
                    entries, now, ok)
  {
  }

  /** The parts that are done and to do make up the whole. */
  ghost predicate Parts(todo: set<JobId>, handled: set<JobId>, all: set<JobId>) {
    todo !! handled && todo + handled == all
  }

  lemma PartsNext(todo: set<JobId>, handled: set<JobId>, all: set<JobId>, id: JobId)
    requires Parts(todo, handled, all) && id in todo
    ensures Parts(todo - {id}, handled + {id}, all) && |handled + {id}| == |handled| + 1
    ensures id in all && id !in handled && |todo - {id}| < |todo|
  {
  }

  lemma HandledCount(todo: set<JobId>, handled: set<JobId>, entries: map<JobId, Resumable>, stopAt: nat)
    requires Parts(todo, handled, entries.Keys) && |handled| <= stopAt
    requires todo == {} || |handled| >= stopAt
    ensures |handled| == if stopAt < |entries| then stopAt else |entries|
  {
    assert |todo + handled| == |todo| + |handled| && |entries| == |entries.Keys|;
  }

  class BulkRunner {
    var db: Tables
    var jobs: map<JobId, BulkJob>

    constructor (db: Tables)
      ensures this.db == db && jobs == map[]
    {
      this.db, jobs := db, map[];
    }

    /** The locked half of finish, then the table write of the snapshot taken under the lock. */
    method Finish(job: BulkJob, status: JobStatus, now: int, ok: bool)
      modifies this`db, job
      ensures job.Value() == FinishJob(old(job.Value()), status, now)
      ensures db == if ok then UpdateJob(old(db), job.Value()) else old(db)
      ensures job.results == old(job.results) && job.sent == old(job.sent) && job.failed == old(job.failed)
      ensures if old(job.status) == Running then job.status == status && job.finishedAt == now
              else job.status == old(job.status) && job.finishedAt == old(job.finishedAt)
      ensures db.messages == old(db).messages && RowWritten(old(db), db, job.id, job.Value(), ok)
    {
      if job.status == Running {
        job.status, job.finishedAt := status, now;
      }
      if ok {
        db := UpdateJob(db, job.Value());
      }
    }

    /** One pass of the loop: send or refuse, write the row, update the job under the lock. */
    method Attend(job: BulkJob, item: BulkItem, pass: Pass)
      modifies this`db, job
      ensures job.Value() == SettleJob(old(job.Value()), item.idx, ResultOf(item, pass.outcome))
      ensures db == if pass.ok then UpdateMessage(old(db), job.id, item.idx, ResultOf(item, pass.outcome)) else old(db)
      ensures |job.results| == |old(job.results)|
      ensures forall i :: 0 <= i < |job.results| && i != item.idx ==> job.results[i] == old(job.results)[i]
      ensures item.idx < |job.results| ==>
        && job.results[item.idx].to == item.to
        && (job.results[item.idx].status == Sent <==> pass.outcome.Accepted?)
        && Says(job.results[item.idx], pass.outcome)
      ensures job.sent == old(job.sent) + if pass.outcome.Accepted? then 1 else 0
      ensures job.failed == old(job.failed) + if pass.outcome.Accepted? then 0 else 1
      ensures job.status == old(job.status) && job.finishedAt == old(job.finishedAt)
      ensures db.jobs == old(db).jobs && db.messages.Keys == old(db).messages.Keys
      ensures forall j :: j in db.messages ==> |db.messages[j]| == |old(db).messages[j]|
      ensures forall j, i :: j in db.messages && 0 <= i < |db.messages[j]| ==>
        var row, was := db.messages[j][i], old(db).messages[j][i];
        if pass.ok && j == job.id && i == item.idx
        then Says(row.result, pass.outcome) && row.result.to == was.result.to && row.text == was.text
        else row == was
    {
      var res := BulkResult(item.to, Sent, "", "");
      match pass.outcome {
        case NoSession(reason) => res := res.(status := Failed, error := reason);
        case SendError(reason) => res := res.(status := Failed, error := reason);
        case Accepted(messageId) => res := res.(messageId := messageId);
      }
      if pass.ok {
        db := UpdateMessage(db, job.id, item.idx, res);
      }
      if item.idx < |job.results| {
        job.results := job.results[item.idx := res];
      }
      if res.status == Sent {
        job.sent := job.sent + 1;
      } else {
        job.failed := job.failed + 1;
      }
    }

    /** One runner, undisturbed: it takes items until the list ends or a stop is seen before item
        stopAt, and its effect on tables and job is that of exactly these labelled steps. */
    method Run(job: BulkJob, items: seq<BulkItem>, passes: seq<Pass>, stopAt: nat, now: int, ok: bool,
               ghost s: System, ghost r: RunnerId)
      requires |passes| == |items|
      requires s.db == db && !s.quit && r in s.runners && s.runners[r] == Runner(job.Value(), items, Idle)
      modifies this`db, job
      ensures var n := if stopAt < |items| then stopAt else |items|;
        var acts := PassActions(r, passes, n) + (if n < |items| then [Quit] else [])
          + [Action.Finish(r, now), FinishWrite(r, ok)];
        && Exec(s, acts).Some?
        && var t := Exec(s, acts).value;
           t.db == db && t.runners == s.runners[r := Runner(job.Value(), items[n..], Done)]
      ensures job.status == if old(job.status) != Running then old(job.status)
                            else if stopAt < |items| then Interrupted else Completed
      ensures Tallied(old(job.Value()), job.Value(), items, passes, if stopAt < |items| then stopAt else |items|)
    {
      var n := 0;
      ghost var began := job.Value();
      while n < |items|
        invariant n <= |items| && n <= stopAt
        invariant job.Value() == JobAfter(began, items, passes, n)
        invariant db == TablesAfter(s.db, began.id, items, passes, n)
      {
        if n == stopAt {
          RunExec(s, r, began, items, passes, n, now, ok);
          Finish(job, Interrupted, now, ok);
          return;
        }
        Attend(job, items[n], passes[n]);
        n := n + 1;
      }
      RunExec(s, r, began, items, passes, n, now, ok);
      Finish(job, Completed, now, ok);
    }

    /** Recovery's scan of the rows of one job it selected. */
    method LoadOne(id: JobId, row: JobRow) returns (entry: Resumable)
      requires id in db.messages && row.total == |db.messages[id]|
      ensures entry == Resume(id, row, db.messages[id])
      ensures entry.job.id == id && entry.job.session == row.session && entry.job.startedAt == row.startedAt
      ensures entry.job.status == Running && entry.job.finishedAt == 0 && entry.job.total == row.total
      ensures |entry.job.results| == |db.messages[id]|
      ensures forall i :: 0 <= i < |db.messages[id]| ==> entry.job.results[i] == db.messages[id][i].result
      ensures forall i :: 0 <= i < |db.messages[id]| ==>
        (db.messages[id][i].result.status == Pending <==> Listed(entry.pending, i))
    {
      var rows := db.messages[id];
      var results := seq(row.total, _ => BulkResult("", Pending, "", ""));
      var sent, failed, pending := 0, 0, [];
      for i := 0 to |rows|
        invariant Scanned(rows, i, results, sent, failed, pending)
      {
        ScanNext(rows, i, results, sent, failed, pending);
        var res := rows[i].result;
        results := results[i := res];
        match res.status {
          case Sent => sent := sent + 1;
          case Failed => failed := failed + 1;
          case Pending => pending := pending + [BulkItem(i, res.to, rows[i].text)];
        }
      }
      ScanDone(rows, results, sent, failed, pending);
      forall i | 0 <= i < |rows| ensures rows[i].result.status == Pending <==> Listed(pending, i) {
        if rows[i].result.status == Pending {
          PendingListed(rows, i);
        }
      }
      entry := Resumable(
        Snapshot(id, row.session, Running, row.total, sent, failed, row.startedAt, 0, results), pending);
    }

    /** The selection and then every scan, with the tables left alone in between. */
    method LoadAll() returns (entries: map<JobId, Resumable>)
      requires forall id :: id in db.jobs ==> id in db.messages && db.jobs[id].total == |db.messages[id]|
      ensures entries == LoadResumable(db)
    {
      var heads := Unfinished(db);
      entries := map[];
      var todo := heads.Keys;
      while todo != {}
        invariant todo <= heads.Keys
        invariant entries == map id | id in heads && id !in todo :: Resume(id, heads[id], db.messages[id])
        decreases |todo|
      {
        var id :| id in todo;
        var entry := LoadOne(id, heads[id]);
        entries := entries[id := entry];
        todo := todo - {id};
      }
    }

    /** With auto-resume off: running jobs are marked interrupted, if the write succeeds. */
    method MarkRunning(now: int, ok: bool)
      modifies this`db
      ensures db == if ok then MarkInterrupted(old(db), now) else old(db)
      ensures db.messages == old(db).messages && db.jobs.Keys == old(db).jobs.Keys
      ensures forall id :: id in db.jobs ==>
        db.jobs[id] == if ok && old(db).jobs[id].status == Running
                       then old(db).jobs[id].(status := Interrupted, finishedAt := now) else old(db).jobs[id]
    {
      if ok {
        db := MarkInterrupted(db, now);
      }
    }

    /** Recovery's turn with one entry: a job with nobody left is finished, one whose session is not ready
        stays interrupted, and any other runs again with the pending recipients. */
    method ResumeOne(id: JobId, entry: Resumable, ready: bool, now: int, ok: bool) returns (runs: bool)
      requires entry.job.id == id
      modifies this
      ensures runs <==> entry.pending != [] && ready
      ensures db.messages == old(db).messages
      ensures !runs ==> jobs == old(jobs) && RowWritten(old(db), db, id, entry.job.(
        status := if entry.pending == [] then Completed else Interrupted, finishedAt := now), ok)
      ensures runs ==>
        && id in jobs && fresh(jobs[id]) && jobs == old(jobs)[id := jobs[id]]
        && jobs[id].Value() == entry.job.(status := Running, finishedAt := 0)
        && RowWritten(old(db), db, id, entry.job.(status := Running, finishedAt := 0), ok)
    {
      if |entry.pending| == 0 {
        var done := entry.job.(status := Completed, finishedAt := now);
        if ok {
          db := UpdateJob(db, done);
        }
        return false;
      }
      if !ready {
        var skipped := entry.job.(status := Interrupted, finishedAt := now);
        if ok {
          db := UpdateJob(db, skipped);
        }
        return false;
      }
      var job := new BulkJob(entry.job.(status := Running, finishedAt := 0));
      jobs := jobs[id := job];
      if ok {
        db := UpdateJob(db, job.Value());
      }
      runs := true;
    }

    /** Recovery, undisturbed: every selected job has its turn, up to where a stop is seen. */
    method ResumeAll(ready: JobId -> bool, stopAt: nat, now: int, ok: JobId -> bool)
      returns (handled: set<JobId>, started: map<JobId, seq<BulkItem>>)
      requires forall id :: id in db.jobs ==> id in db.messages && db.jobs[id].total == |db.messages[id]|
      modifies this
      ensures var entries := LoadResumable(old(db));
        && handled <= entries.Keys
        && |handled| == (if stopAt < |entries| then stopAt else |entries|)
        && StartedAre(started, handled, entries, ready)
        && Resumed(old(db), db, handled, started, entries, now, ok)
      ensures Joined(old(jobs), jobs, started)
    {
      var entries := LoadAll();
      handled, started := {}, map[];
      var todo := entries.Keys;
      while todo != {} && |handled| < stopAt
        invariant Parts(todo, handled, entries.Keys) && |handled| <= stopAt
        invariant StartedAre(started, handled, entries, ready)
        invariant Resumed(old(db), db, handled, started, entries, now, ok)
        invariant Joined(old(jobs), jobs, started)
        decreases |todo|
      {
        var id :| id in todo;
        ghost var mid, jobsBefore, startedBefore := db, jobs, started;
        var runs := ResumeOne(id, entries[id], ready(id), now, ok(id));
        ResumedNext(old(db), mid, db, handled, started, entries, now, ok, id, runs,
                    if runs then entries[id].job.(status := Running, finishedAt := 0)
                    else entries[id].job.(status := if entries[id].pending == [] then Completed else Interrupted,
                                          finishedAt := now));
        if runs {
          JoinedNext(old(jobs), jobsBefore, started, id, jobs[id], entries[id].pending);
          started := started[id := entries[id].pending];
        }
        StartedNext(startedBefore, handled, entries, ready, id);
        PartsNext(todo, handled, entries.Keys, id);
        todo, handled := todo - {id}, handled + {id};
      }
      HandledCount(todo, handled, entries, stopAt);
    }

    /** Drops finished jobs older than one hour from memory, visiting the map in any order. */
    method Cleanup(now: int)
      modifies this`jobs
      ensures jobs == map id | id in old(jobs) && !Evictable(old(jobs)[id].Value(), now) :: old(jobs)[id]
      ensures forall id :: id in old(jobs) ==>
        var j := old(jobs)[id];
        (id !in jobs <==> j.status != Running && 0 < j.finishedAt && now - j.finishedAt > 3600)
    {
      var todo := jobs.Keys;
      while todo != {}
        invariant todo <= old(jobs).Keys
        invariant jobs ==
          map id | id in old(jobs) && (id in todo || !Evictable(old(jobs)[id].Value(), now)) :: old(jobs)[id]
        decreases |todo|
      {
        var id :| id in todo;
        var j := jobs[id];
        if j.status != Running && j.finishedAt > 0 && j.finishedAt < now - 3600 {
          jobs := map k | k in jobs && k != id :: jobs[k];
        }
        todo := todo - {id};
      }
    }

    /** The text one recipient gets. */
    method TextFor(req: BulkRequest, m: Recipient) returns (text: string)
      ensures text == FinalText(req, m) && IsTextFor(text, req, m)
    {
      text := m.text;
      if text == "" && req.template != "" {
        text := Template.RenderTemplate(req.template, m.vars);
      }
      if text == "" {
        text := req.text;
      }
    }

    /** Validates the recipients in order and resolves every text. */
    method ResolveTexts(req: BulkRequest) returns (error: Option<SubmitError>, msgs: seq<BulkMessage>)
      ensures error.None? <==> Recipients(req) != [] && forall m :: m in Recipients(req) ==> Sendable(req, m)
      ensures error.None? ==> msgs == Resolved(req)
      ensures AreRecipients(req, Recipients(req))
      ensures error.None? ==> |msgs| == |Recipients(req)| && forall i :: 0 <= i < |msgs| ==>
        msgs[i].to == Recipients(req)[i].to && IsTextFor(msgs[i].text, req, Recipients(req)[i])
      ensures error.Some? && Recipients(req) == [] ==> error.value == NoRecipients
      ensures error.Some? && Recipients(req) != [] ==>
        (error.value.EmptyRecipient? || error.value.NoMessage?)
        && var k := error.value.index;
           k < |Recipients(req)| && !Sendable(req, Recipients(req)[k])
           && (error.value.EmptyRecipient? <==> Recipients(req)[k].to == "")
           && forall i :: 0 <= i < k ==> Sendable(req, Recipients(req)[i])
    {
      msgs := [];
      var recipients := Recipients(req);
      if |recipients| == 0 {
        return Some(NoRecipients), msgs;
      }
      for i := 0 to |recipients|
        invariant |msgs| == i
        invariant forall k :: 0 <= k < i ==> Sendable(req, recipients[k])
        invariant forall k :: 0 <= k < i ==> msgs[k] == BulkMessage(recipients[k].to, FinalText(req, recipients[k]))
        invariant forall k :: 0 <= k < i ==> IsTextFor(msgs[k].text, req, recipients[k])
      {
        var m := recipients[i];
        assert m in recipients;
        if m.to == "" {
          return Some(EmptyRecipient(i)), msgs;
        }
        var text := TextFor(req, m);
        if text == "" {
          return Some(NoMessage(i)), msgs;
        }
        msgs := msgs + [BulkMessage(m.to, text)];
      }
      error := None;
    }

    /** Validates a request, persists and registers the job. */
    method Submit(req: BulkRequest, sessions: set<string>, id: JobId, now: int, saved: bool)
      returns (out: SubmitResult, items: seq<BulkItem>)
      requires id !in jobs
      modifies this
      ensures out.Submitted? <==>
        SessionName(req) in sessions && Recipients(req) != [] && forall m :: m in Recipients(req) ==> Sendable(req, m)
      ensures out.Rejected? ==> db == old(db) && jobs == old(jobs)
      ensures out == Rejected(NoSuchSession) <==> SessionName(req) !in sessions
      ensures out.Submitted? ==>
        && out.job == FreshJob(id, SessionName(req), Resolved(req), now)
        && items == FreshItems(Resolved(req))
        && db == (if saved then SaveJob(old(db), out.job, Resolved(req)) else old(db))
        && id in jobs && fresh(jobs[id]) && jobs[id].Value() == out.job
        && AreRecipients(req, Recipients(req)) && IsNewJob(out.job, items, id, req, Recipients(req), now)
        && (if saved then IsPersisted(old(db), db, out.job, items) else db == old(db))
        && jobs - {id} == map j | j in old(jobs) && !Evictable(old(jobs)[j].Value(), now) :: old(jobs)[j]
    {
      items := [];
      var session := SessionName(req);
      if session !in sessions {
        return Rejected(NoSuchSession), items;
      }
      var error, msgs := ResolveTexts(req);
      if error.Some? {
        return Rejected(error.value), items;
      }
      var snap := FreshJob(id, session, msgs, now);
      var job := new BulkJob(snap);
      items := FreshItems(msgs);
      if saved {
        db := SaveJob(db, snap, msgs);
      }
      SubmittedIsNew(req, id, now, old(db));
      Register(job, now);
      out := Submitted(snap);
    }

    /** The locked half of submit: old jobs leave memory, the new one joins. */
    method Register(job: BulkJob, now: int)
      requires job.id !in jobs
      modifies this`jobs
      ensures job.id in jobs && jobs[job.id] == job
      ensures jobs - {job.id} == map j | j in old(jobs) && !Evictable(old(jobs)[j].Value(), now) :: old(jobs)[j]
    {
      Cleanup(now);
      ghost var kept := jobs;
      jobs := jobs[job.id := job];
      assert jobs - {job.id} == kept;
    }
  }

  /** What the scan has gathered from the first i rows. */
  predicate Scanned(rows: seq<MsgRow>, i: nat, results: seq<BulkResult>, sent: int, failed: int,
                    pending: seq<BulkItem>) {
    && i <= |rows| == |results|
    && results[..i] == Results(rows[..i])
    && sent == CountStatus(results[..i], Sent) && failed == CountStatus(results[..i], Failed)
    && pending == PendingItems(rows[..i])
  }

  lemma ScanNext(rows: seq<MsgRow>, i: nat, results: seq<BulkResult>, sent: int, failed: int, pending: seq<BulkItem>)
    requires i < |rows| && Scanned(rows, i, results, sent, failed, pending)
    ensures var res := rows[i].result;
            Scanned(rows, i + 1, results[i := res], sent + One(res.status.Sent?), failed + One(res.status.Failed?),
                    if res.status.Pending? then pending + [BulkItem(i, res.to, rows[i].text)] else pending)
  {
    var res := rows[i].result;
    assert rows[..i + 1][..i] == rows[..i];
    assert results[i := res][..i + 1] == results[..i] + [res];
    assert (results[..i] + [res])[..i] == results[..i];
  }

  lemma ScanDone(rows: seq<MsgRow>, results: seq<BulkResult>, sent: int, failed: int, pending: seq<BulkItem>)
    requires Scanned(rows, |rows|, results, sent, failed, pending)
    ensures results == Results(rows)
    ensures sent == CountStatus(Results(rows), Sent) && failed == CountStatus(Results(rows), Failed)
    ensures pending == PendingItems(rows)
  {
    assert rows[..|rows|] == rows && results[..|rows|] == results;
  }

  /** The runner leaves its loop: interrupted when a stop was seen, completed otherwise. */
  lemma StopExec(s: System, acts: seq<Action>, u: System, r: RunnerId, stopping: bool, now: int, ok: bool)
    requires Exec(s, acts) == Some(u) && r in u.runners && u.runners[r].phase.Idle? && !u.quit
    requires stopping <==> u.runners[r].items != []
    ensures var p := u.runners[r]; var job := FinishJob(p.job, if stopping then Interrupted else Completed, now);
      var more := acts + (if stopping then [Quit] else []) + [Finish(r, now), FinishWrite(r, ok)];
      && Exec(s, more).Some?
      && Exec(s, more).value.db == (if ok then UpdateJob(u.db, job) else u.db)
      && Exec(s, more).value.runners == u.runners[r := Runner(job, p.items, Done)]
  {
    var first := acts + (if stopping then [Quit] else []);
    if stopping {
      ExecStep(s, acts, Quit);
    } else {
      assert first == acts;
    }
    ExecStep(s, first, Finish(r, now));
    ExecStep(s, first + [Finish(r, now)], FinishWrite(r, ok));
    assert first + [Finish(r, now), FinishWrite(r, ok)] == first + [Finish(r, now)] + [FinishWrite(r, ok)];
  }

  lemma PutTwice(runners: map<RunnerId, Runner>, r: RunnerId, p: Runner, q: Runner)
    ensures runners[r := p][r := q] == runners[r := q]
  {
  }

  /** The labelled steps of n passes lead to the job and the tables after n passes. */
  lemma {:induction false} PassesExec(s: System, r: RunnerId, job: Snapshot, items: seq<BulkItem>, passes: seq<Pass>,
                                      n: nat)
    returns (u: System)
    requires n <= |items| == |passes| && !s.quit && r in s.runners && s.runners[r] == Runner(job, items, Idle)
    ensures Exec(s, PassActions(r, passes, n)) == Some(u) && !u.quit
    ensures u.db == TablesAfter(s.db, job.id, items, passes, n)
    ensures u.runners == s.runners[r := Runner(JobAfter(job, items, passes, n), items[n..], Idle)]
  {
    if n == 0 {
      u := s;
      assert items[0..] == items;
    } else {
      var before := PassesExec(s, r, job, items, passes, n - 1);
      var p := before.runners[r];
      assert p == Runner(JobAfter(job, items, passes, n - 1), items[n - 1..], Idle);
      assert p.items[0] == items[n - 1] && p.items[1..] == items[n..];
      u := PassNext(s, before, r, passes, n - 1);
      PutTwice(s.runners, r, p, Runner(JobAfter(job, items, passes, n), items[n..], Idle));
    }
  }

  /** The whole run: n passes, a stop seen when there is more to do, and finish. */
  lemma RunExec(s: System, r: RunnerId, job: Snapshot, items: seq<BulkItem>, passes: seq<Pass>, n: nat, now: int,
                ok: bool)
    requires n <= |items| == |passes| && !s.quit && r in s.runners && s.runners[r] == Runner(job, items, Idle)
    ensures var acts := PassActions(r, passes, n) + (if n < |items| then [Quit] else [])
              + [Finish(r, now), FinishWrite(r, ok)];
      var done := FinishJob(JobAfter(job, items, passes, n), if n < |items| then Interrupted else Completed, now);
      var db := TablesAfter(s.db, job.id, items, passes, n);
      && Exec(s, acts).Some?
      && Exec(s, acts).value.db == (if ok then UpdateJob(db, done) else db)
      && Exec(s, acts).value.runners == s.runners[r := Runner(done, items[n..], Done)]
      && Tallied(job, done, items, passes, n)
  {
    var u := PassesExec(s, r, job, items, passes, n);
    StopExec(s, PassActions(r, passes, n), u, r, n < |items|, now, ok);
    TalliedAfter(job, items, passes, n);
  }

  /** In the transition system an entry of the recovery list has the same three ways to go as in ResumeOne. */
  lemma TurnSteps(s: System, id: JobId, now: int, ok: bool)
    requires s.heads == map[] && id in s.loaded && s.loaded[id].job.id == id
    ensures var job := s.loaded[id].job;
      if s.loaded[id].pending == [] then
        var t := Step(s, ResumeFinal(id, now, ok));
        t.Some? && RowWritten(s.db, t.value.db, id, job.(status := Completed, finishedAt := now), ok)
      else
        var t := Step(s, ResumeSkip(id, now, ok));
        t.Some? && RowWritten(s.db, t.value.db, id, job.(status := Interrupted, finishedAt := now), ok)
  {
  }

  lemma StartBegins(s: System, id: JobId, r: RunnerId)
    requires s.heads == map[] && id in s.loaded && s.loaded[id].pending != [] && r !in s.runners
    ensures Step(s, ResumeStart(r, id)).Some?
    ensures var u := Step(s, ResumeStart(r, id)).value;
      && u.db == s.db && u.registry == s.registry[id := r]
      && u.runners == s.runners[r := Runner(s.loaded[id].job, s.loaded[id].pending, Starting)]
  {
  }

  lemma StartLands(u: System, r: RunnerId, ok: bool)
    requires r in u.runners && u.runners[r].phase.Starting?
    ensures Step(u, StartWrite(r, ok)).Some?
    ensures var t := Step(u, StartWrite(r, ok)).value; var job := u.runners[r].job;
      && RowWritten(u.db, t.db, job.id, job, ok) && t.registry == u.registry
      && t.runners == u.runners[r := u.runners[r].(phase := Idle)]
  {
  }

  lemma StartSteps(s: System, id: JobId, r: RunnerId, ok: bool)
    requires s.heads == map[] && id in s.loaded && s.loaded[id].job.id == id && s.loaded[id].pending != []
    requires r !in s.runners
    ensures var t := Exec(s, [ResumeStart(r, id), StartWrite(r, ok)]);
      && t.Some? && RowWritten(s.db, t.value.db, id, s.loaded[id].job, ok)
      && t.value.runners == s.runners[r := Runner(s.loaded[id].job, s.loaded[id].pending, Idle)]
      && t.value.registry == s.registry[id := r]
  {
    StartBegins(s, id, r);
    StartLands(Step(s, ResumeStart(r, id)).value, r, ok);
    ExecTwo(s, ResumeStart(r, id), StartWrite(r, ok));
  }
}
