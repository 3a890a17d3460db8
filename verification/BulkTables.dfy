/** The two bulk tables, the job snapshot, and the SQL statements of the bulk store
    as the table updates they denote. */
module BulkTables {
  import opened Options

  type JobId = string

  datatype MsgStatus = Pending | Sent | Failed

  /** The outcome of one recipient. */
  datatype BulkResult = BulkResult(to: string, status: MsgStatus, messageId: string, error: string)

  /** The statuses the code assigns; "cancelled" is declared in the API but never assigned. */
  datatype JobStatus = Running | Completed | Interrupted

  /** A deep copy of a job, as returned to callers. */
  datatype Snapshot = Snapshot(
    id: JobId, session: string, status: JobStatus, total: nat, sent: nat, failed: nat,
    startedAt: int, finishedAt: int, results: seq<BulkResult>)

  datatype BulkMessage = BulkMessage(to: string, text: string)

  datatype BulkItem = BulkItem(idx: nat, to: string, text: string)

  datatype JobRow = JobRow(
    session: string, status: JobStatus, total: nat, sent: nat, failed: nat, startedAt: int, finishedAt: int)

  datatype MsgRow = MsgRow(result: BulkResult, text: string)

  /** gw_bulk_jobs by primary key, and gw_bulk_messages by job and row index. */
  datatype Tables = Tables(jobs: map<JobId, JobRow>, messages: map<JobId, seq<MsgRow>>)

  /** A job chosen for recovery, with its still-pending recipients. */
  datatype Resumable = Resumable(job: Snapshot, pending: seq<BulkItem>)

  function FreshResult(m: BulkMessage): BulkResult {
    BulkResult(m.to, Pending, "", "")
  }

  function FreshResults(msgs: seq<BulkMessage>): seq<BulkResult> {
    seq(|msgs|, i requires 0 <= i < |msgs| => FreshResult(msgs[i]))
  }

  function FreshItems(msgs: seq<BulkMessage>): seq<BulkItem> {
    seq(|msgs|, i requires 0 <= i < |msgs| => BulkItem(i, msgs[i].to, msgs[i].text))
  }

  function FreshRows(msgs: seq<BulkMessage>): seq<MsgRow> {
    seq(|msgs|, i requires 0 <= i < |msgs| => MsgRow(FreshResult(msgs[i]), msgs[i].text))
  }

  function FreshJob(id: JobId, session: string, msgs: seq<BulkMessage>, now: int): Snapshot {
    Snapshot(id, session, Running, |msgs|, 0, 0, now, 0, FreshResults(msgs))
  }

  /** The transaction that inserts a job row and all its message rows. */
  function SaveJob(db: Tables, job: Snapshot, msgs: seq<BulkMessage>): Tables {
    Tables(
      db.jobs[job.id := JobRow(job.session, job.status, job.total, 0, 0, job.startedAt, 0)],
      db.messages[job.id := FreshRows(msgs)])
  }

  /** UPDATE of one message row; touches nothing when there is no such row. */
  function UpdateMessage(db: Tables, id: JobId, idx: nat, res: BulkResult): Tables {
    if id in db.messages && idx < |db.messages[id]| then
      var row := db.messages[id][idx];
      var result := row.result.(status := res.status, messageId := res.messageId, error := res.error);
      db.(messages := db.messages[id := db.messages[id][idx := row.(result := result)]])
    else
      db
  }

  /** UPDATE of the status, counters and finish time of one job row. */
  function UpdateJob(db: Tables, job: Snapshot): Tables {
    if job.id in db.jobs then
      var row := db.jobs[job.id].(
        status := job.status, sent := job.sent, failed := job.failed, finishedAt := job.finishedAt);
      db.(jobs := db.jobs[job.id := row])
    else
      db
  }

  /** UPDATE of every running job row, used when auto-resume is off. */
  function MarkInterrupted(db: Tables, now: int): Tables {
    db.(jobs := map id | id in db.jobs ::
      if db.jobs[id].status.Running? then db.jobs[id].(status := Interrupted, finishedAt := now) else db.jobs[id])
  }

  function Results(rows: seq<MsgRow>): (r: seq<BulkResult>)
    ensures |r| == |rows| && forall i :: 0 <= i < |rows| ==> r[i] == rows[i].result
  {
    if rows == [] then [] else Results(rows[..|rows| - 1]) + [rows[|rows| - 1].result]
  }

  function CountStatus(results: seq<BulkResult>, status: MsgStatus): (n: nat)
    ensures n <= |results|
  {
    if results == [] then 0 else
      CountStatus(results[..|results| - 1], status) + if results[|results| - 1].status == status then 1 else 0
  }

  /** The recipients of the pending rows, in row order. */
  function PendingItems(rows: seq<MsgRow>): (items: seq<BulkItem>)
    ensures forall k :: 0 <= k < |items| ==>
      items[k].idx < |rows| && rows[items[k].idx].result.status.Pending?
    ensures forall k, l :: 0 <= k < l < |items| ==> items[k].idx < items[l].idx
  {
    if rows == [] then [] else
      var n := |rows| - 1;
      var before := PendingItems(rows[..n]);
      if rows[n].result.status.Pending? then before + [BulkItem(n, rows[n].result.to, rows[n].text)] else before
  }

  ghost predicate Listed(items: seq<BulkItem>, idx: nat) {
    exists k :: 0 <= k < |items| && items[k].idx == idx
  }

  /** Every pending row has its item. */
  lemma {:induction false} PendingListed(rows: seq<MsgRow>, idx: nat)
    requires idx < |rows| && rows[idx].result.status.Pending?
    ensures Listed(PendingItems(rows), idx)
  {
    var n := |rows| - 1;
    var before := PendingItems(rows[..n]);
    if idx == n {
      assert PendingItems(rows)[|before|].idx == idx;
    } else {
      PendingListed(rows[..n], idx);
      var k :| 0 <= k < |before| && before[k].idx == idx;
      assert PendingItems(rows)[k] == before[k];
    }
  }

  /** An item carries the address and the text of its row. */
  lemma {:induction false} PendingItemsMatch(rows: seq<MsgRow>)
    ensures forall k :: 0 <= k < |PendingItems(rows)| ==>
      PendingItems(rows)[k].to == rows[PendingItems(rows)[k].idx].result.to
      && PendingItems(rows)[k].text == rows[PendingItems(rows)[k].idx].text
  {
    if rows != [] {
      PendingItemsMatch(rows[..|rows| - 1]);
    }
  }

  /** What recovery makes of one selected job row and its message rows. */
  function Resume(id: JobId, row: JobRow, rows: seq<MsgRow>): Resumable {
    var results := Results(rows);
    Resumable(
      Snapshot(id, row.session, Running, row.total, CountStatus(results, Sent), CountStatus(results, Failed),
               row.startedAt, 0, results),
      PendingItems(rows))
  }

  /** The job rows recovery selects: running or interrupted. */
  function Unfinished(db: Tables): map<JobId, JobRow> {
    map id | id in db.jobs && (db.jobs[id].status.Running? || db.jobs[id].status.Interrupted?) :: db.jobs[id]
  }

  /** What recovery gathers when the tables stay as they are: every selected job with its pending recipients. */
  function LoadResumable(db: Tables): map<JobId, Resumable> {
    map id | id in Unfinished(db) && id in db.messages :: Resume(id, Unfinished(db)[id], db.messages[id])
  }

  /** A job read back from the tables; the counters come from the message rows unless there are none. */
  function LoadJob(db: Tables, id: JobId): Option<Snapshot> {
    if id !in db.jobs then None else
      var row := db.jobs[id];
      var results := if id in db.messages then Results(db.messages[id]) else [];
      Some(Snapshot(
        id, row.session, row.status, row.total,
        if |results| > 0 then CountStatus(results, Sent) else row.sent,
        if |results| > 0 then CountStatus(results, Failed) else row.failed,
        row.startedAt, row.finishedAt, results))
  }

  function One(b: bool): nat {
    if b then 1 else 0
  }

  /** Changing one result from pending moves exactly one unit between the counts. */
  lemma {:induction false} CountUpdate(results: seq<BulkResult>, i: nat, res: BulkResult, status: MsgStatus)
    requires i < |results|
    ensures CountStatus(results[i := res], status)
         == CountStatus(results, status)
            - One(results[i].status == status) + One(res.status == status)
  {
    var n := |results| - 1;
    var updated := results[i := res];
    if i == n {
      assert updated[..n] == results[..n];
    } else {
      CountUpdate(results[..n], i, res, status);
      assert updated[..n] == results[..n][i := res];
    }
  }

  /** Every recipient is counted exactly once. */
  lemma {:induction false} CountsPartition(results: seq<BulkResult>)
    ensures CountStatus(results, Pending) + CountStatus(results, Sent) + CountStatus(results, Failed) == |results|
  {
    if results != [] {
      CountsPartition(results[..|results| - 1]);
    }
  }

  lemma {:induction false} CountZero(results: seq<BulkResult>, status: MsgStatus)
    ensures CountStatus(results, status) == 0 <==> forall i :: 0 <= i < |results| ==> results[i].status != status
  {
    if results != [] {
      var n := |results| - 1;
      CountZero(results[..n], status);
      assert forall i :: 0 <= i < n ==> results[..n][i] == results[i];
    }
  }
}
