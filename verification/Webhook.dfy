/** The webhook queue: a bounded channel, a pool of workers, and delivery with retries. */
module Webhook {
  import opened Options

  type Body = string
  type WorkerId = nat

  /** attempt counts from 1. A worker is posting it, or waiting after it failed. */
  datatype Worker = Idle | Posting(body: Body, attempt: nat) | Waiting(body: Body, attempt: nat) | Exited

  /** The logs, in order: bodies accepted and taken, finished posts, and how bodies left their workers. */
  datatype Hook = Hook(
    capacity: nat, attempts: nat, quit: bool, queue: seq<Body>, workers: seq<Worker>,
    accepted: seq<Body>, taken: seq<Body>, posts: seq<Body>,
    delivered: seq<Body>, gaveUp: seq<Body>, abandoned: seq<Body>)

  datatype Action =
    | Enqueue(body: Body)
    | Take(worker: WorkerId)
    | PostOk(worker: WorkerId)
    | PostFail(worker: WorkerId)
    | Wake(worker: WorkerId)
    | Abandon(worker: WorkerId)
    | Exit(worker: WorkerId)
    | Quit

  function AtLeastOne(n: int): nat {
    if n < 1 then 1 else n
  }

  function Start(size: int, workers: int, retries: int): Hook {
    Hook(AtLeastOne(size), Attempts(retries), false, [], seq(AtLeastOne(workers), i => Idle),
         [], [], [], [], [], [])
  }

  /** A full queue drops the body; nothing else happens then. */
  function Step(s: Hook, a: Action): Option<Hook> {
    match a
    case Enqueue(body) =>
      Some(if |s.queue| < s.capacity then s.(queue := s.queue + [body], accepted := s.accepted + [body]) else s)
    case Quit => Some(s.(quit := true))
    case _ => if a.worker < |s.workers| then Work(s, a, s.workers[a.worker]) else None
  }

  function Work(s: Hook, a: Action, w: Worker): Option<Hook>
    requires !a.Enqueue? && !a.Quit? && a.worker < |s.workers|
  {
    if a.Take? && w.Idle? && s.queue != [] then
      Some(s.(queue := s.queue[1..], taken := s.taken + [s.queue[0]],
              workers := s.workers[a.worker := Posting(s.queue[0], 1)]))
    else if a.PostOk? && w.Posting? then
      Some(s.(workers := s.workers[a.worker := Idle], posts := s.posts + [w.body], delivered := s.delivered + [w.body]))
    else if a.PostFail? && w.Posting? && w.attempt < s.attempts then
      Some(s.(workers := s.workers[a.worker := Waiting(w.body, w.attempt)], posts := s.posts + [w.body]))
    else if a.PostFail? && w.Posting? then
      Some(s.(workers := s.workers[a.worker := Idle], posts := s.posts + [w.body], gaveUp := s.gaveUp + [w.body]))
    else if a.Wake? && w.Waiting? then
      Some(s.(workers := s.workers[a.worker := Posting(w.body, w.attempt + 1)]))
    else if a.Abandon? && w.Waiting? && s.quit then
      Some(s.(workers := s.workers[a.worker := Idle], abandoned := s.abandoned + [w.body]))
    else if a.Exit? && w.Idle? && s.quit then
      Some(s.(workers := s.workers[a.worker := Exited]))
    else None
  }

  function Exec(s: Hook, acts: seq<Action>): Option<Hook> {
    if acts == [] then Some(s)
    else
      match Exec(s, acts[..|acts| - 1])
      case None => None
      case Some(t) => Step(t, acts[|acts| - 1])
  }

  // ---- where a body is ----

  /** How often b occurs in a log. */
  function Copies(s: seq<Body>, b: Body): nat {
    if s == [] then 0 else Copies(s[..|s| - 1], b) + if s[|s| - 1] == b then 1 else 0
  }

  function HeldBy(w: Worker, b: Body): nat {
    if (w.Posting? || w.Waiting?) && w.body == b then 1 else 0
  }

  /** How many workers hold b. */
  function Held(ws: seq<Worker>, b: Body): nat {
    if ws == [] then 0 else Held(ws[..|ws| - 1], b) + HeldBy(ws[|ws| - 1], b)
  }

  function MadeBy(w: Worker, b: Body): nat {
    if w.Posting? && w.body == b && w.attempt > 0 then w.attempt - 1
    else if w.Waiting? && w.body == b then w.attempt
    else 0
  }

  /** The finished posts of b by workers that still hold it. */
  function Made(ws: seq<Worker>, b: Body): nat {
    if ws == [] then 0 else Made(ws[..|ws| - 1], b) + MadeBy(ws[|ws| - 1], b)
  }

  lemma CopiesAppend(s: seq<Body>, x: Body, b: Body)
    ensures Copies(s + [x], b) == Copies(s, b) + if x == b then 1 else 0
  {
    assert (s + [x])[..|s|] == s;
  }

  lemma {:induction false} CopiesConcat(s: seq<Body>, t: seq<Body>, b: Body)
    ensures Copies(s + t, b) == Copies(s, b) + Copies(t, b)
  {
    if t == [] {
      assert s + t == s;
    } else {
      var n := |t| - 1;
      CopiesConcat(s, t[..n], b);
      assert s + t == s + t[..n] + [t[n]];
      CopiesAppend(s + t[..n], t[n], b);
    }
  }

  lemma {:induction false} ReplaceWorker(ws: seq<Worker>, i: nat, w: Worker, b: Body)
    requires i < |ws|
    ensures Held(ws[i := w], b) + HeldBy(ws[i], b) == Held(ws, b) + HeldBy(w, b)
    ensures Made(ws[i := w], b) + MadeBy(ws[i], b) == Made(ws, b) + MadeBy(w, b)
  {
    var n := |ws| - 1;
    if i == n {
      assert ws[i := w][..n] == ws[..n];
    } else {
      ReplaceWorker(ws[..n], i, w, b);
      assert ws[i := w][..n] == ws[..n][i := w];
      assert ws[i := w][n] == ws[n];
    }
  }

  predicate InRange(w: Worker, attempts: nat) {
    && (w.Posting? ==> 1 <= w.attempt <= attempts)
    && (w.Waiting? ==> 1 <= w.attempt < attempts)
  }

  predicate AllInRange(ws: seq<Worker>, attempts: nat) {
    forall i :: 0 <= i < |ws| ==> InRange(ws[i], attempts)
  }

  /** The queue is bounded and bodies leave it in the order they were accepted. */
  predicate InOrder(s: Hook) {
    && |s.queue| <= s.capacity
    && s.accepted == s.taken + s.queue
    && AllInRange(s.workers, s.attempts)
    && (!s.quit ==> s.abandoned == [] && Exited !in s.workers)
  }

  /** The copies of one body at every place, and its finished posts: all, and those for held copies. */
  datatype Count = Count(taken: nat, held: nat, delivered: nat, gaveUp: nat, abandoned: nat, posts: nat, made: nat)

  function CountOf(s: Hook, b: Body): Count {
    Count(Copies(s.taken, b), Held(s.workers, b), Copies(s.delivered, b), Copies(s.gaveUp, b), Copies(s.abandoned, b),
          Copies(s.posts, b), Made(s.workers, b))
  }

  /** n rounds of `attempts` posts. */
  function Rounds(attempts: nat, n: nat): nat {
    if n == 0 then 0 else Rounds(attempts, n - 1) + attempts
  }

  /** Every taken copy is held, delivered, given up or abandoned; a copy that left was posted once to
      `attempts` times, one given up `attempts` times. */
  predicate Balanced(attempts: nat, c: Count) {
    && c.taken == c.held + c.delivered + c.gaveUp + c.abandoned
    && c.delivered + Rounds(attempts, c.gaveUp) + c.abandoned + c.made <= c.posts
    && c.posts <= Rounds(attempts, c.delivered + c.gaveUp + c.abandoned) + c.made
  }

  lemma OrderKept(s: Hook, a: Action)
    requires InOrder(s) && s.attempts >= 1 && Step(s, a).Some?
    ensures InOrder(Step(s, a).value)
  {
    var t := Step(s, a).value;
    if a.Take? {
      assert s.queue == [s.queue[0]] + s.queue[1..];
      assert t.taken + t.queue == s.taken + s.queue;
    }
    assert Exited in t.workers && Exited !in s.workers ==> a.Exit?;
  }

  /** What a step by worker w, for the body it holds or takes, adds to the counts of that body. */
  function Moved(c: Count, a: Action, w: Worker, attempts: nat): Count {
    match a
    case Take(_) => c.(taken := c.taken + 1, held := c.held + 1)
    case PostOk(_) =>
      if w.Posting? && 1 <= w.attempt <= c.made + 1 && c.held > 0 then
        c.(held := c.held - 1, made := c.made - (w.attempt - 1), posts := c.posts + 1, delivered := c.delivered + 1)
      else c
    case PostFail(_) =>
      if w.Posting? && w.attempt < attempts then c.(made := c.made + 1, posts := c.posts + 1)
      else if w.Posting? && 1 <= w.attempt <= c.made + 1 && c.held > 0 then
        c.(held := c.held - 1, made := c.made - (w.attempt - 1), posts := c.posts + 1, gaveUp := c.gaveUp + 1)
      else c
    case Abandon(_) =>
      if w.Waiting? && w.attempt <= c.made && c.held > 0 then
        c.(held := c.held - 1, made := c.made - w.attempt, abandoned := c.abandoned + 1)
      else c
    case _ => c
  }

  lemma {:induction false} HoldsSome(ws: seq<Worker>, i: nat, b: Body)
    requires i < |ws|
    ensures HeldBy(ws[i], b) <= Held(ws, b) && MadeBy(ws[i], b) <= Made(ws, b)
  {
    if i < |ws| - 1 {
      HoldsSome(ws[..|ws| - 1], i, b);
    }
  }

  /** The worker that moves, and the others. */
  lemma WorkerCounts(ws: seq<Worker>, i: nat, w: Worker, b: Body)
    requires i < |ws|
    ensures Held(ws[i := w], b) == Held(ws, b) - HeldBy(ws[i], b) + HeldBy(w, b)
    ensures Made(ws[i := w], b) == Made(ws, b) - MadeBy(ws[i], b) + MadeBy(w, b)
    ensures HeldBy(ws[i], b) <= Held(ws, b) && MadeBy(ws[i], b) <= Made(ws, b)
  {
    HoldsSome(ws, i, b);
    ReplaceWorker(ws, i, w, b);
  }

  /** The body a step is about. */
  predicate Concerns(s: Hook, a: Action, b: Body)
    requires Step(s, a).Some? && !a.Enqueue? && !a.Quit?
  {
    if a.Take? then s.queue[0] == b else HeldBy(s.workers[a.worker], b) == 1
  }

  lemma TakeCounts(s: Hook, a: Action, b: Body)
    requires a.Take? && Step(s, a).Some? && InRange(s.workers[a.worker], s.attempts)
    ensures CountOf(Step(s, a).value, b) ==
              if Concerns(s, a, b) then Moved(CountOf(s, b), a, s.workers[a.worker], s.attempts) else CountOf(s, b)
  {
    WorkerCounts(s.workers, a.worker, Posting(s.queue[0], 1), b);
    CopiesAppend(s.taken, s.queue[0], b);
  }

  /** The queue after a post that ends worker i's delivery, by success or by the last attempt. */
  function Released(s: Hook, i: WorkerId, ok: bool): Hook
    requires i < |s.workers| && s.workers[i].Posting?
  {
    var body := s.workers[i].body;
    var t := s.(workers := s.workers[i := Idle], posts := s.posts + [body]);
    if ok then t.(delivered := s.delivered + [body]) else t.(gaveUp := s.gaveUp + [body])
  }

  lemma ReleasedWorker(ws: seq<Worker>, i: nat, b: Body, attempts: nat)
    requires i < |ws| && ws[i].Posting? && InRange(ws[i], attempts)
    ensures var n := if ws[i].body == b then 1 else 0;
      && Held(ws[i := Idle], b) + n == Held(ws, b)
      && Made(ws[i := Idle], b) + (if n == 1 then ws[i].attempt - 1 else 0) == Made(ws, b)
  {
    WorkerCounts(ws, i, Idle, b);
  }

  lemma ReleasedLogs(s: Hook, i: WorkerId, ok: bool, b: Body)
    requires i < |s.workers| && s.workers[i].Posting?
    ensures var t := Released(s, i, ok); var n := if s.workers[i].body == b then 1 else 0;
      && Copies(t.posts, b) == Copies(s.posts, b) + n
      && Copies(t.delivered, b) == Copies(s.delivered, b) + (if ok then n else 0)
      && Copies(t.gaveUp, b) == Copies(s.gaveUp, b) + (if ok then 0 else n)
      && t.taken == s.taken && t.abandoned == s.abandoned && t.workers == s.workers[i := Idle]
  {
    var body := s.workers[i].body;
    CopiesAppend(s.posts, body, b);
    CopiesAppend(s.delivered, body, b);
    CopiesAppend(s.gaveUp, body, b);
  }

  /** One held copy less, one post more, and one copy more where the body went. */
  predicate Leaves(c: Count, d: Count, made: nat, ok: bool) {
    && d.taken == c.taken && d.abandoned == c.abandoned && d.held + 1 == c.held && d.made + made == c.made
    && d.posts == c.posts + 1 && d.delivered == c.delivered + One(ok) && d.gaveUp == c.gaveUp + One(!ok)
  }

  function One(b: bool): nat {
    if b then 1 else 0
  }

  lemma ReleasedCounts(s: Hook, i: WorkerId, ok: bool, b: Body)
    requires i < |s.workers| && s.workers[i].Posting? && InRange(s.workers[i], s.attempts)
    ensures var c, d := CountOf(s, b), CountOf(Released(s, i, ok), b); var w := s.workers[i];
      if w.body == b then Leaves(c, d, w.attempt - 1, ok) else d == c
  {
    ReleasedWorker(s.workers, i, b, s.attempts);
    ReleasedLogs(s, i, ok, b);
  }

  lemma PostOkCounts(s: Hook, a: Action, b: Body)
    requires a.PostOk? && Step(s, a).Some? && InRange(s.workers[a.worker], s.attempts)
    ensures CountOf(Step(s, a).value, b) ==
              if Concerns(s, a, b) then Moved(CountOf(s, b), a, s.workers[a.worker], s.attempts) else CountOf(s, b)
  {
    ReleasedCounts(s, a.worker, true, b);
  }

  lemma RetryCounts(s: Hook, a: Action, b: Body)
    requires a.PostFail? && a.worker < |s.workers| && Retries(s, s.workers[a.worker])
    requires Step(s, a).Some? && InRange(s.workers[a.worker], s.attempts)
    ensures CountOf(Step(s, a).value, b) ==
              if Concerns(s, a, b) then Moved(CountOf(s, b), a, s.workers[a.worker], s.attempts) else CountOf(s, b)
  {
    var w := s.workers[a.worker];
    WorkerCounts(s.workers, a.worker, Waiting(w.body, w.attempt), b);
    CopiesAppend(s.posts, w.body, b);
  }

  lemma GiveUpCounts(s: Hook, a: Action, b: Body)
    requires a.PostFail? && a.worker < |s.workers| && !Retries(s, s.workers[a.worker])
    requires Step(s, a).Some? && InRange(s.workers[a.worker], s.attempts)
    ensures CountOf(Step(s, a).value, b) ==
              if Concerns(s, a, b) then Moved(CountOf(s, b), a, s.workers[a.worker], s.attempts) else CountOf(s, b)
  {
    ReleasedCounts(s, a.worker, false, b);
  }

  lemma WakeCounts(s: Hook, a: Action, b: Body)
    requires a.Wake? && Step(s, a).Some? && InRange(s.workers[a.worker], s.attempts)
    ensures CountOf(Step(s, a).value, b) ==
              if Concerns(s, a, b) then Moved(CountOf(s, b), a, s.workers[a.worker], s.attempts) else CountOf(s, b)
  {
    var w := s.workers[a.worker];
    WorkerCounts(s.workers, a.worker, Posting(w.body, w.attempt + 1), b);
  }

  lemma AbandonCounts(s: Hook, a: Action, b: Body)
    requires a.Abandon? && Step(s, a).Some? && InRange(s.workers[a.worker], s.attempts)
    ensures CountOf(Step(s, a).value, b) ==
              if Concerns(s, a, b) then Moved(CountOf(s, b), a, s.workers[a.worker], s.attempts) else CountOf(s, b)
  {
    WorkerCounts(s.workers, a.worker, Idle, b);
    CopiesAppend(s.abandoned, s.workers[a.worker].body, b);
  }

  lemma ExitCounts(s: Hook, a: Action, b: Body)
    requires a.Exit? && Step(s, a).Some? && InRange(s.workers[a.worker], s.attempts)
    ensures CountOf(Step(s, a).value, b) ==
              if Concerns(s, a, b) then Moved(CountOf(s, b), a, s.workers[a.worker], s.attempts) else CountOf(s, b)
  {
    WorkerCounts(s.workers, a.worker, Exited, b);
  }

  predicate Retries(s: Hook, w: Worker) {
    w.Posting? && w.attempt < s.attempts
  }

  lemma StepCounts(s: Hook, a: Action, b: Body)
    requires !a.Enqueue? && !a.Quit? && Step(s, a).Some? && InRange(s.workers[a.worker], s.attempts)
    ensures CountOf(Step(s, a).value, b) ==
              if Concerns(s, a, b) then Moved(CountOf(s, b), a, s.workers[a.worker], s.attempts) else CountOf(s, b)
  {
    match a
    case Take(_) => TakeCounts(s, a, b);
    case PostOk(_) => PostOkCounts(s, a, b);
    case PostFail(_) =>
      if Retries(s, s.workers[a.worker]) {
        RetryCounts(s, a, b);
      } else {
        GiveUpCounts(s, a, b);
      }
    case Wake(_) => WakeCounts(s, a, b);
    case Abandon(_) => AbandonCounts(s, a, b);
    case Exit(_) => ExitCounts(s, a, b);
  }

  lemma MovedBalanced(attempts: nat, c: Count, a: Action, w: Worker)
    requires Balanced(attempts, c) && InRange(w, attempts)
    ensures Balanced(attempts, Moved(c, a, w, attempts))
  {
  }

  lemma StepBalanced(s: Hook, a: Action, b: Body)
    requires AllInRange(s.workers, s.attempts) && Balanced(s.attempts, CountOf(s, b)) && Step(s, a).Some?
    ensures Balanced(s.attempts, CountOf(Step(s, a).value, b)) && Step(s, a).value.attempts == s.attempts
  {
    if !a.Enqueue? && !a.Quit? {
      StepCounts(s, a, b);
      MovedBalanced(s.attempts, CountOf(s, b), a, s.workers[a.worker]);
    }
  }

  lemma {:induction false} MadeBounded(ws: seq<Worker>, b: Body, attempts: nat)
    requires AllInRange(ws, attempts)
    ensures Made(ws, b) <= Rounds(attempts, Held(ws, b))
  {
    if ws != [] {
      var n := |ws| - 1;
      MadeBounded(ws[..n], b, attempts);
      assert InRange(ws[n], attempts);
    }
  }

  lemma {:induction false} NobodyHolds(n: nat, b: Body)
    ensures var ws := seq(n, i => Idle); Held(ws, b) == 0 && Made(ws, b) == 0
  {
    if n > 0 {
      NobodyHolds(n - 1, b);
      assert seq(n, i => Idle)[..n - 1] == seq(n - 1, i => Idle);
    }
  }

  predicate SetupIs(s: Hook, size: int, workers: int, retries: int) {
    s.capacity == AtLeastOne(size) && s.attempts == Attempts(retries) && |s.workers| == AtLeastOne(workers)
  }

  lemma StepKeeps(s: Hook, a: Action, b: Body, size: int, workers: int, retries: int)
    requires InOrder(s) && Balanced(s.attempts, CountOf(s, b)) && SetupIs(s, size, workers, retries) && Step(s, a).Some?
    ensures var t := Step(s, a).value;
            InOrder(t) && Balanced(t.attempts, CountOf(t, b)) && SetupIs(t, size, workers, retries)
  {
    OrderKept(s, a);
    StepBalanced(s, a, b);
  }

  /** Every run keeps the order, and every body is accounted for. */
  lemma {:induction false} RunKeeps(size: int, workers: int, retries: int, acts: seq<Action>, b: Body)
    requires Exec(Start(size, workers, retries), acts).Some?
    ensures var s := Exec(Start(size, workers, retries), acts).value;
            InOrder(s) && Balanced(s.attempts, CountOf(s, b)) && SetupIs(s, size, workers, retries)
  {
    if acts == [] {
      NobodyHolds(AtLeastOne(workers), b);
    } else {
      var n := |acts| - 1;
      var before := Exec(Start(size, workers, retries), acts[..n]).value;
      RunKeeps(size, workers, retries, acts[..n], b);
      StepKeeps(before, acts[n], b, size, workers, retries);
    }
  }

  /** Over every run: the taken bodies are the accepted ones in order, and each accepted body is queued,
      held by a worker, delivered, given up or abandoned; the queue and the held bodies are bounded. */
  lemma QueueLaw(size: int, workers: int, retries: int, acts: seq<Action>, b: Body)
    requires Exec(Start(size, workers, retries), acts).Some?
    ensures var s := Exec(Start(size, workers, retries), acts).value;
            && s.accepted == s.taken + s.queue
            && Copies(s.accepted, b) ==
                 Copies(s.queue, b) + Held(s.workers, b) +
                 Copies(s.delivered, b) + Copies(s.gaveUp, b) + Copies(s.abandoned, b)
    ensures var s := Exec(Start(size, workers, retries), acts).value;
            && |s.queue| <= (if size < 1 then 1 else size)
            && |s.workers| == (if workers < 1 then 1 else workers)
    ensures var s := Exec(Start(size, workers, retries), acts).value;
            !s.quit ==> s.abandoned == []
  {
    var s := Exec(Start(size, workers, retries), acts).value;
    RunKeeps(size, workers, retries, acts, b);
    CopiesConcat(s.taken, s.queue, b);
  }

  /** Over every run: a body is posted at most `attempts` times per accepted copy, at least once per
      copy that left, and exactly `attempts` times per copy when all were given up. */
  lemma PostLaw(size: int, workers: int, retries: int, acts: seq<Action>, b: Body)
    requires Exec(Start(size, workers, retries), acts).Some?
    ensures var s := Exec(Start(size, workers, retries), acts).value;
            Copies(s.delivered, b) + Copies(s.gaveUp, b) + Copies(s.abandoned, b) <= Copies(s.posts, b)
    ensures var s := Exec(Start(size, workers, retries), acts).value;
            Copies(s.posts, b) <= Attempts(retries) * Copies(s.accepted, b)
    ensures var s := Exec(Start(size, workers, retries), acts).value;
            Copies(s.gaveUp, b) == Copies(s.accepted, b) ==>
              Copies(s.posts, b) == Attempts(retries) * Copies(s.gaveUp, b)
  {
    var s := Exec(Start(size, workers, retries), acts).value;
    RunKeeps(size, workers, retries, acts, b);
    CopiesConcat(s.taken, s.queue, b);
    MadeBounded(s.workers, b, s.attempts);
    PostsOf(s.attempts, CountOf(s, b), Copies(s.accepted, b));
  }

  lemma PostsOf(attempts: nat, c: Count, accepted: nat)
    requires attempts >= 1 && Balanced(attempts, c) && c.made <= Rounds(attempts, c.held) && c.taken <= accepted
    ensures c.delivered + c.gaveUp + c.abandoned <= c.posts <= attempts * accepted
    ensures c.gaveUp == accepted ==> c.posts == attempts * c.gaveUp
  {
    RoundsSum(attempts, c.delivered + c.gaveUp + c.abandoned, c.held);
    RoundsSum(attempts, c.taken, accepted - c.taken);
    RoundsProduct(attempts, accepted);
    RoundsProduct(attempts, c.gaveUp);
  }

  lemma {:induction false} RoundsSum(attempts: nat, m: nat, n: nat)
    ensures Rounds(attempts, m + n) == Rounds(attempts, m) + Rounds(attempts, n)
  {
    if n > 0 {
      RoundsSum(attempts, m, n - 1);
    }
  }

  lemma {:induction false} RoundsProduct(attempts: nat, n: nat)
    ensures Rounds(attempts, n) == attempts * n
    ensures attempts >= 1 ==> Rounds(attempts, n) >= n
  {
    if n > 0 {
      RoundsProduct(attempts, n - 1);
    }
  }

  /** A body is accepted exactly when the queue has room, and otherwise dropped without a trace. */
  lemma AcceptedExactly(s: Hook, b: Body)
    ensures Step(s, Enqueue(b)).Some?
    ensures var t := Step(s, Enqueue(b)).value;
      if |s.queue| < s.capacity then t == s.(queue := s.queue + [b], accepted := s.accepted + [b]) else t == s
  {
  }

  /** An idle worker can always take the oldest queued body, a posting one always finishes its post, and a
      waiting one goes on, or gives the body up when the service stops; nothing else is possible. */
  lemma WorkersMove(s: Hook, i: WorkerId)
    requires i < |s.workers|
    ensures Step(s, Take(i)).Some? <==> s.workers[i].Idle? && s.queue != []
    ensures Step(s, PostOk(i)).Some? <==> s.workers[i].Posting?
    ensures Step(s, PostFail(i)).Some? <==> s.workers[i].Posting?
    ensures Step(s, Wake(i)).Some? <==> s.workers[i].Waiting?
    ensures Step(s, Abandon(i)).Some? <==> s.workers[i].Waiting? && s.quit
    ensures Step(s, Exit(i)).Some? <==> s.workers[i].Idle? && s.quit
    ensures Step(s, Take(i)).Some? ==> Step(s, Take(i)).value.workers[i] == Posting(s.queue[0], 1)
  {
  }

  /** Stopping does not drain: once every worker has left, the queued bodies stay where they are,
      whatever comes after. */
  lemma {:induction false} StopLeavesQueue(s: Hook, acts: seq<Action>)
    requires Exec(s, acts).Some? && forall i :: 0 <= i < |s.workers| ==> s.workers[i].Exited?
    ensures var t := Exec(s, acts).value;
            && s.queue <= t.queue && t.workers == s.workers && t.posts == s.posts
            && t.delivered == s.delivered && t.gaveUp == s.gaveUp && t.abandoned == s.abandoned
  {
    if acts != [] {
      StopLeavesQueue(s, acts[..|acts| - 1]);
    }
  }

  // ---- delivering one body ----

  const MAX_INT := 0x7FFF_FFFF_FFFF_FFFF
  const TWO_64 := 0x1_0000_0000_0000_0000

  /** The 64-bit two's complement value of x. */
  function Wrap(x: int): int {
    (x + MAX_INT + 1) % TWO_64 - MAX_INT - 1
  }

  function Pow2(n: nat): nat {
    if n == 0 then 1 else 2 * Pow2(n - 1)
  }

  /** 1 << n in 64 bits. */
  function Shift(n: nat): int {
    if n >= 64 then 0 else Wrap(Pow2(n))
  }

  function Attempts(retries: int): nat {
    AtLeastOne(Wrap(retries + 1))
  }

  const MILLISECOND := 1_000_000
  const SECOND := 1_000_000_000

  function Backoff(ms: int): int {
    var b := Wrap(ms * MILLISECOND);
    if b <= 0 then SECOND else b
  }

  /** The first wait is the configured one, or a second when none is configured. */
  lemma BackoffExactly(ms: int)
    ensures 0 < ms <= 9_223_372_036_854 ==> Backoff(ms) == ms * 1_000_000
    ensures -9_223_372_036_854 <= ms <= 0 ==> Backoff(ms) == 1_000_000_000
  {
    var x := ms * MILLISECOND;
    if -9_223_372_036_854 <= ms <= 9_223_372_036_854 {
      assert 0 <= x + MAX_INT + 1 < TWO_64;
    }
  }

  /** The wait after attempt k failed. */
  function Wait(backoff: int, k: nat): int
    requires k >= 1
  {
    Wrap(backoff * Shift(k - 1))
  }

  /** How long the worker waits after attempt k: not at all when the computed wait is negative. */
  function Waited(backoff: int, k: nat): nat
    requires k >= 1
  {
    if Wait(backoff, k) < 0 then 0 else Wait(backoff, k)
  }

  /** How long the worker has waited before attempt k. */
  function TotalWait(backoff: int, k: nat): nat {
    if k <= 1 then 0 else TotalWait(backoff, k - 1) + Waited(backoff, k - 1)
  }

  datatype Delivery = Delivered | GivenUp | Stopped

  /** The attempt that settles the delivery: the first that succeeds, is the last, or is followed by a stop. */
  predicate Settles(ok: nat -> bool, stopped: nat -> bool, attempts: nat, k: nat) {
    ok(k) || k >= attempts || stopped(k)
  }

  predicate NotSettledBefore(ok: nat -> bool, stopped: nat -> bool, attempts: nat, k: nat) {
    forall j :: 1 <= j < k ==> !Settles(ok, stopped, attempts, j)
  }

  predicate WaitsAre(waits: seq<int>, backoff: int) {
    forall i :: 0 <= i < |waits| ==> waits[i] == Wait(backoff, i + 1)
  }

  /** ok(k) answers the k-th post, stopped(k) says whether the stop interrupts the wait after it. The
      worker's steps, taken together, are a run of the queue. */
  method Deliver(body: Body, retries: int, backoffMs: int, ok: nat -> bool, stopped: nat -> bool,
                 ghost s: Hook, ghost w: WorkerId)
    returns (posts: nat, end: Delivery, ghost waits: seq<int>, ghost acts: seq<Action>)
    requires w < |s.workers| && s.workers[w] == Posting(body, 1) && s.attempts == Attempts(retries)
    requires forall k :: stopped(k) ==> s.quit
    ensures 1 <= posts <= Attempts(retries)
    ensures Settles(ok, stopped, Attempts(retries), posts)
    ensures NotSettledBefore(ok, stopped, Attempts(retries), posts)
    ensures end == if ok(posts) then Delivered else if posts == Attempts(retries) then GivenUp else Stopped
    ensures |waits| == posts - (if end.Stopped? then 0 else 1)
    ensures WaitsAre(waits, Backoff(backoffMs))
    ensures 0 < backoffMs <= 9_223_372_036_854 ==> WaitsAre(waits, backoffMs * 1_000_000)
    ensures -9_223_372_036_854 <= backoffMs <= 0 ==> WaitsAre(waits, 1_000_000_000)
    ensures Exec(s, acts) == Some(Settled(s, w, body, posts, end))
  {
    var attempts := Attempts(retries);
    var backoff := Backoff(backoffMs);
    BackoffExactly(backoffMs);
    posts, waits, acts := 0, [], [];
    TryFirst(s, w, body);
    for attempt := 1 to attempts + 1
      invariant posts == attempt - 1
      invariant attempt <= attempts
      invariant |waits| == posts
      invariant NotSettledBefore(ok, stopped, attempts, attempt)
      invariant WaitsAre(waits, backoff)
      invariant Exec(s, acts) == Some(Trying(s, w, body, attempt))
    {
      posts := attempt;
      if ok(attempt) {
        TrySucceeds(s, w, body, attempt);
        acts := Extend(s, acts, PostOk(w));
        return posts, Delivered, waits, acts;
      }
      TryFails(s, w, body, attempt);
      acts := Extend(s, acts, PostFail(w));
      if attempt < attempts {
        waits := waits + [Wait(backoff, attempt)];
        if stopped(attempt) {
          acts := Extend(s, acts, Abandon(w));
          return posts, Stopped, waits, acts;
        }
        acts := Extend(s, acts, Wake(w));
      } else {
        return posts, GivenUp, waits, acts;
      }
    }
  }

  ghost method Extend(s: Hook, acts: seq<Action>, a: Action) returns (more: seq<Action>)
    requires Exec(s, acts).Some?
    ensures more == acts + [a] && Exec(s, more) == Step(Exec(s, acts).value, a)
  {
    more := acts + [a];
    assert more[..|acts|] == acts;
  }

  function Times(body: Body, n: nat): seq<Body> {
    seq(n, i => body)
  }

  /** The queue while the worker is at its given attempt. */
  function Trying(s: Hook, w: WorkerId, body: Body, attempt: nat): Hook
    requires w < |s.workers| && attempt >= 1
  {
    s.(workers := s.workers[w := Posting(body, attempt)], posts := s.posts + Times(body, attempt - 1))
  }

  /** The queue while the worker waits after its given attempt. */
  function Pausing(s: Hook, w: WorkerId, body: Body, attempt: nat): Hook
    requires w < |s.workers|
  {
    s.(workers := s.workers[w := Waiting(body, attempt)], posts := s.posts + Times(body, attempt))
  }

  lemma TryFirst(s: Hook, w: WorkerId, body: Body)
    requires w < |s.workers| && s.workers[w] == Posting(body, 1)
    ensures Trying(s, w, body, 1) == s
  {
    assert s.workers[w := Posting(body, 1)] == s.workers && s.posts + Times(body, 0) == s.posts;
  }

  lemma TimesNext(s: seq<Body>, body: Body, n: nat)
    requires n >= 1
    ensures s + Times(body, n - 1) + [body] == s + Times(body, n)
  {
  }

  lemma TrySucceeds(s: Hook, w: WorkerId, body: Body, attempt: nat)
    requires w < |s.workers| && attempt >= 1
    ensures Step(Trying(s, w, body, attempt), PostOk(w)) == Some(Settled(s, w, body, attempt, Delivered))
  {
    TimesNext(s.posts, body, attempt);
    assert s.workers[w := Posting(body, attempt)][w := Idle] == s.workers[w := Idle];
  }

  lemma TryFails(s: Hook, w: WorkerId, body: Body, attempt: nat)
    requires w < |s.workers| && attempt >= 1
    ensures Step(Trying(s, w, body, attempt), PostFail(w)) ==
              Some(if attempt < s.attempts then Pausing(s, w, body, attempt) else Settled(s, w, body, attempt, GivenUp))
    ensures Step(Pausing(s, w, body, attempt), Wake(w)) == Some(Trying(s, w, body, attempt + 1))
    ensures s.quit ==> Step(Pausing(s, w, body, attempt), Abandon(w)) == Some(Settled(s, w, body, attempt, Stopped))
  {
    TimesNext(s.posts, body, attempt);
    var ws := s.workers;
    assert ws[w := Posting(body, attempt)][w := Waiting(body, attempt)] == ws[w := Waiting(body, attempt)];
    assert ws[w := Posting(body, attempt)][w := Idle] == ws[w := Idle];
    assert ws[w := Waiting(body, attempt)][w := Posting(body, attempt + 1)] == ws[w := Posting(body, attempt + 1)];
    assert ws[w := Waiting(body, attempt)][w := Idle] == ws[w := Idle];
  }

  /** The queue after the delivery: the worker is idle and the body is accounted for once. */
  function Settled(s: Hook, w: WorkerId, body: Body, posts: nat, end: Delivery): Hook
    requires w < |s.workers|
  {
    var t := s.(workers := s.workers[w := Idle], posts := s.posts + Times(body, posts));
    match end
    case Delivered => t.(delivered := s.delivered + [body])
    case GivenUp => t.(gaveUp := s.gaveUp + [body])
    case Stopped => t.(abandoned := s.abandoned + [body])
  }

  /** At most max(1, retries + 1) posts. */
  lemma PostLimit(retries: int)
    requires -MAX_INT - 1 <= retries <= MAX_INT
    ensures var limit := if retries < 0 then 1 else retries + 1;
      && Attempts(retries) <= limit
      && (Attempts(retries) == limit <==> retries < 0x7FFF_FFFF_FFFF_FFFF)
  {
  }

  // ---- the waits ----

  lemma {:induction false} Pow2Bound(n: nat)
    ensures Pow2(n) >= 1
    ensures n >= 63 ==> Pow2(n) > MAX_INT
  {
    if n == 63 {
      Pow2At63(n);
    } else if n > 0 {
      Pow2Bound(n - 1);
    }
  }

  lemma Pow2At63(n: nat)
    requires n == 63
    ensures Pow2(n) == MAX_INT + 1
  {
    Pow2By21(n - 21);
    Pow2By21(n - 42);
    Pow2By21(n - 63);
  }

  lemma Pow2By21(n: nat)
    ensures Pow2(n + 21) == 0x20_0000 * Pow2(n)
  {
    Pow2By7(n + 14);
    Pow2By7(n + 7);
    Pow2By7(n);
  }

  lemma Pow2By7(n: nat)
    ensures Pow2(n + 7) == 128 * Pow2(n)
  {
    assert Pow2(n + 2) == 4 * Pow2(n);
    assert Pow2(n + 4) == 4 * Pow2(n + 2);
    assert Pow2(n + 6) == 4 * Pow2(n + 4);
  }

  /** A wait is the doubled backoff exactly when that fits in 63 bits; otherwise it is shorter. */
  lemma WaitExactly(backoff: int, k: nat)
    requires 1 <= backoff <= MAX_INT && k >= 1
    ensures Wait(backoff, k) == backoff * Pow2(k - 1) <==> backoff * Pow2(k - 1) <= MAX_INT
    ensures Wait(backoff, k) <= backoff * Pow2(k - 1)
  {
    Pow2Bound(k - 1);
    var x := backoff * Pow2(k - 1);
    Grows(backoff, Pow2(k - 1));
    if x <= MAX_INT {
      assert Shift(k - 1) == Pow2(k - 1);
    }
  }

  lemma Grows(a: int, b: int)
    requires a >= 1 && b >= 1
    ensures a * b >= a && a * b >= b
  {
  }

  /** The time waited before attempt k is backoff * (2^(k-1) - 1) exactly when the last of the waits fits
      in 63 bits; otherwise it is less. */
  lemma TotalWaitExactly(backoff: int, k: nat)
    requires 1 <= backoff <= MAX_INT && k >= 2
    ensures TotalWait(backoff, k) == backoff * (Pow2(k - 1) - 1) <==> backoff * Pow2(k - 2) <= MAX_INT
    ensures TotalWait(backoff, k) <= backoff * (Pow2(k - 1) - 1)
  {
    DoubledIsProduct(backoff, k - 1);
    DoubledIsProduct(backoff, k - 2);
    assert backoff * (Pow2(k - 1) - 1) == backoff * Pow2(k - 1) - backoff;
    TotalWaitDoubles(backoff, k);
  }

  /** x doubled n times. */
  function Doubled(x: int, n: nat): int {
    if n == 0 then x else 2 * Doubled(x, n - 1)
  }

  lemma {:induction false} DoubledIsProduct(x: int, n: nat)
    ensures Doubled(x, n) == x * Pow2(n)
  {
    if n > 0 {
      DoubledIsProduct(x, n - 1);
      assert x * (2 * Pow2(n - 1)) == 2 * (x * Pow2(n - 1));
    }
  }

  lemma {:induction false} TotalWaitDoubles(backoff: int, k: nat)
    requires 1 <= backoff <= MAX_INT && k >= 2
    ensures TotalWait(backoff, k) == Doubled(backoff, k - 1) - backoff <==> Doubled(backoff, k - 2) <= MAX_INT
    ensures TotalWait(backoff, k) <= Doubled(backoff, k - 1) - backoff
    ensures Doubled(backoff, k - 2) >= 1
  {
    WaitExactly(backoff, k - 1);
    DoubledIsProduct(backoff, k - 2);
    if k > 2 {
      TotalWaitDoubles(backoff, k - 1);
    }
  }

  /** However many retries are configured, the waiting is over after the 64th wait: from then on every
      attempt follows at once, and the total stays what it was before attempt 65. */
  lemma {:induction false} WaitingEnds(backoff: int, k: nat)
    requires k >= 65
    ensures Wait(backoff, k) == 0 && TotalWait(backoff, k) == TotalWait(backoff, 65)
  {
    if k > 65 {
      WaitingEnds(backoff, k - 1);
    }
  }
}
