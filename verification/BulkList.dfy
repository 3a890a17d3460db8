/** The job listing: memory merged over the newest page of the job table, newest first. */
module BulkList {
  import opened BulkTables

  /** How often a job id is listed. */
  function Listings(jobs: seq<Snapshot>, id: JobId): nat {
    if jobs == [] then 0 else (if jobs[0].id == id then 1 else 0) + Listings(jobs[1..], id)
  }

  predicate NewestFirst(jobs: seq<Snapshot>) {
    forall i, j :: 0 <= i < j < |jobs| ==> jobs[i].startedAt >= jobs[j].startedAt
  }

  function InsertByStart(jobs: seq<Snapshot>, job: Snapshot): seq<Snapshot> {
    if jobs == [] || job.startedAt >= jobs[0].startedAt then [job] + jobs
    else [jobs[0]] + InsertByStart(jobs[1..], job)
  }

  /** Stands for the library sort by start time, whose order among equal times is unspecified. */
  function SortByStart(jobs: seq<Snapshot>): seq<Snapshot> {
    if jobs == [] then [] else InsertByStart(SortByStart(jobs[1..]), jobs[0])
  }

  lemma {:induction false} InsertMembers(jobs: seq<Snapshot>, job: Snapshot)
    ensures forall x :: x in InsertByStart(jobs, job) <==> x == job || x in jobs
    ensures forall id :: Listings(InsertByStart(jobs, job), id) == Listings(jobs, id) + One(job.id == id)
  {
    if jobs != [] && job.startedAt < jobs[0].startedAt {
      InsertMembers(jobs[1..], job);
    }
  }

  lemma {:induction false} InsertSorted(jobs: seq<Snapshot>, job: Snapshot)
    requires NewestFirst(jobs)
    ensures NewestFirst(InsertByStart(jobs, job))
  {
    if jobs != [] && job.startedAt < jobs[0].startedAt {
      InsertSorted(jobs[1..], job);
      InsertMembers(jobs[1..], job);
      var rest := InsertByStart(jobs[1..], job);
      forall k | 0 <= k < |rest| ensures jobs[0].startedAt >= rest[k].startedAt {
        assert rest[k] in rest;
      }
    }
  }

  lemma {:induction false} SortCorrect(jobs: seq<Snapshot>)
    ensures NewestFirst(SortByStart(jobs))
    ensures forall x :: x in SortByStart(jobs) <==> x in jobs
    ensures forall id :: Listings(SortByStart(jobs), id) == Listings(jobs, id)
  {
    if jobs != [] {
      SortCorrect(jobs[1..]);
      InsertSorted(SortByStart(jobs[1..]), jobs[0]);
      InsertMembers(SortByStart(jobs[1..]), jobs[0]);
    }
  }

  lemma {:induction false} ListingsAppend(jobs: seq<Snapshot>, job: Snapshot)
    ensures forall id :: Listings(jobs + [job], id) == Listings(jobs, id) + One(job.id == id)
  {
    if jobs != [] {
      ListingsAppend(jobs[1..], job);
      assert (jobs + [job])[1..] == jobs[1..] + [job];
    }
  }

  /** Every entry is memory's version of its job, or the page's when memory has none. */
  ghost predicate Sourced(out: seq<Snapshot>, mem: map<JobId, Snapshot>, page: seq<Snapshot>) {
    forall j :: j in out ==> if j.id in mem then j == mem[j.id] else j in page
  }

  /** The first loop: the page in order, memory taking precedence. */
  method MergePage(mem: map<JobId, Snapshot>, page: seq<Snapshot>) returns (out: seq<Snapshot>, seen: set<JobId>)
    requires forall id :: id in mem ==> mem[id].id == id
    ensures forall id :: Listings(out, id) == Listings(page, id)
    ensures forall id :: id in seen <==> Listings(page, id) > 0
    ensures Sourced(out, mem, page)
  {
    out, seen := [], {};
    for i := 0 to |page|
      invariant forall id :: Listings(out, id) == Listings(page[..i], id)
      invariant forall id :: id in seen <==> Listings(page[..i], id) > 0
      invariant Sourced(out, mem, page)
    {
      var j := page[i];
      var entry := if j.id in mem then mem[j.id] else j;
      ListingsAppend(out, entry);
      ListingsAppend(page[..i], j);
      assert page[..i + 1] == page[..i] + [j];
      out := out + [entry];
      seen := seen + {j.id};
    }
    assert page[..|page|] == page;
  }

  /** Each job known to memory or to the page is listed once, in memory's version when there is one,
      newest first; nothing else is listed. */
  method List(mem: map<JobId, Snapshot>, page: seq<Snapshot>) returns (out: seq<Snapshot>)
    requires forall id :: id in mem ==> mem[id].id == id
    requires forall id :: Listings(page, id) <= 1
    ensures forall id :: Listings(out, id) == One(id in mem || Listings(page, id) > 0)
    ensures Sourced(out, mem, page)
    ensures NewestFirst(out)
  {
    var merged, seen := MergePage(mem, page);
    var todo := mem.Keys - seen;
    while todo != {}
      invariant todo <= mem.Keys - seen
      invariant forall id :: Listings(merged, id) == One((id in mem && id !in todo) || id in seen)
      invariant Sourced(merged, mem, page)
      decreases |todo|
    {
      var id :| id in todo;
      ListingsAppend(merged, mem[id]);
      merged := merged + [mem[id]];
      todo := todo - {id};
    }
    SortCorrect(merged);
    out := SortByStart(merged);
  }
}
