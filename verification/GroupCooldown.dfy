/** The quiet period after pairing and the cooldown between group creations. Times are
    nanoseconds since the Unix epoch; a missing time is unknown. */
module GroupCooldown {
  datatype Time = Unknown | At(ns: int)

  const SECOND := 1_000_000_000
  const HOUR := 3600 * SECOND

  datatype Refusal = QuietPeriod(remaining: int) | Cooldown(remaining: int)

  datatype Verdict = Accepted | Refused(reason: Refusal)

  datatype Config = Config(quietHours: int, cooldownHours: int)

  /** The instant the quiet period or the cooldown ends, if that check is on and its start is known. */
  predicate Blocks(hours: int, since: Time) {
    hours * HOUR > 0 && since.At?
  }

  /** The threshold as the status report computes it: the later of the two ends, or none. */
  function AllowedAt(cfg: Config, pairedAt: Time, lastCreate: Time): Time {
    var quiet := if Blocks(cfg.quietHours, pairedAt) then At(pairedAt.ns + cfg.quietHours * HOUR) else Unknown;
    if Blocks(cfg.cooldownHours, lastCreate) then
      var t := lastCreate.ns + cfg.cooldownHours * HOUR;
      if quiet.Unknown? || t > quiet.ns then At(t) else quiet
    else quiet
  }

  predicate Later(t: Time, now: int) {
    t.At? && t.ns > now
  }

  /** The reported second, 0 when creation is allowed now. */
  function ReportedAt(cfg: Config, pairedAt: Time, lastCreate: Time, now: int): int {
    var t := AllowedAt(cfg, pairedAt, lastCreate);
    if Later(t, now) then t.ns / SECOND else 0
  }

  // ---- the life of a session, over any number of process lifetimes ----

  /** A creation attempt at three clock readings; a pairing, written at one reading (if the write
      succeeds) and remembered at the next; the write of a creation time reaching the table, whenever
      it does; or a restart of the process, which reads both times back from the table. */
  datatype Event =
    | Try(t1: int, t2: int, t3: int)
    | Pair(t1: int, t2: int, ok: bool)
    | Land(at: int)
    | Restart

  /** An accepted creation, and when the session had been paired. */
  datatype Creation = Creation(at: int, paired: Time)

  /** What the session object knows, what the table holds in seconds, and what has happened. */
  datatype State = State(
    pairedAt: Time, lastCreate: Time, storedPair: int, storedCreate: int,
    paired: Time, created: Time, accepted: seq<Creation>)

  /** The verdict the method gives, as a function of the session's times and the clock readings. */
  predicate Accepts(cfg: Config, pairedAt: Time, lastCreate: Time, e: Event)
    requires e.Try?
  {
    && !(Blocks(cfg.quietHours, pairedAt) && pairedAt.ns + cfg.quietHours * HOUR > e.t1)
    && !(Blocks(cfg.cooldownHours, lastCreate) && lastCreate.ns + cfg.cooldownHours * HOUR > e.t2)
  }

  /** What the table keeps of a time, and what start makes of it. */
  function Stored(t: int): int { t / SECOND }

  function Reloaded(seconds: int): Time {
    if seconds > 0 then At(seconds * SECOND) else Unknown
  }

  function Next(cfg: Config, s: State, e: Event): State {
    match e
    case Pair(t1, t2, ok) =>
      s.(pairedAt := At(t2), paired := At(t1), storedPair := if ok then Stored(t1) else s.storedPair)
    case Try(_, _, t3) =>
      if Accepts(cfg, s.pairedAt, s.lastCreate, e) then
        s.(lastCreate := At(t3), created := At(t3), accepted := s.accepted + [Creation(t3, s.paired)])
      else s
    case Land(at) => s.(storedCreate := Stored(at))
    case Restart => s.(pairedAt := Reloaded(s.storedPair), lastCreate := Reloaded(s.storedCreate))
  }

  function Run(cfg: Config, s: State, events: seq<Event>): State {
    if events == [] then s else Next(cfg, Run(cfg, s, events[..|events| - 1]), events[|events| - 1])
  }

  /** Clock readings within an event do not go back, and are after the epoch. */
  predicate Clocked(e: Event) {
    match e
    case Try(t1, t2, t3) => SECOND <= t1 <= t2 <= t3
    case Pair(t1, t2, _) => SECOND <= t1 <= t2
    case _ => true
  }

  predicate AllClocked(events: seq<Event>) {
    forall i :: 0 <= i < |events| ==> Clocked(events[i])
  }

  /** The write of the last pairing, or of the last creation, has reached the table. */
  predicate PairFound(s: State) {
    s.paired.At? ==> s.storedPair == Stored(s.paired.ns)
  }

  predicate CreateFound(s: State) {
    s.created.At? ==> s.storedCreate == Stored(s.created.ns)
  }

  /** Every restart finds the last pairing in the table. */
  predicate PairsFound(cfg: Config, s: State, events: seq<Event>) {
    events == [] ||
    (var n := |events| - 1;
     PairsFound(cfg, s, events[..n]) && (events[n].Restart? ==> PairFound(Run(cfg, s, events[..n]))))
  }

  /** Every restart finds the last creation in the table. */
  predicate CreatesFound(cfg: Config, s: State, events: seq<Event>) {
    events == [] ||
    (var n := |events| - 1;
     CreatesFound(cfg, s, events[..n]) && (events[n].Restart? ==> CreateFound(Run(cfg, s, events[..n]))))
  }

  /** The fraction of a second that restarts may cost. */
  function Slack(events: seq<Event>): int {
    if Restart in events then SECOND - 1 else 0
  }

  /** What the session knows of a time is behind what happened by no more than the slack. */
  predicate AtMostEarlier(known: Time, actual: Time, slack: int) {
    actual.At? ==> known.At? && actual.ns - slack <= known.ns && actual.ns >= SECOND
  }

  predicate FarFrom(before: Time, distance: int, at: int, slack: int) {
    before.At? ==> at >= before.ns + distance - slack
  }

  /** Creations are pairwise at least the cooldown apart, the first one from an earlier creation, less
      the slack. */
  predicate Spaced(cooldown: int, before: Time, a: seq<Creation>, slack: int) {
    && (forall i, j :: 0 <= i < j < |a| ==> a[j].at >= a[i].at + cooldown - slack)
    && (forall i :: 0 <= i < |a| ==> FarFrom(before, cooldown, a[i].at, slack))
  }

  /** Each creation is at least the quiet period after the pairing before it, less the slack. */
  predicate Quiet(quiet: int, a: seq<Creation>, slack: int) {
    forall i :: 0 <= i < |a| ==> FarFrom(a[i].paired, quiet, a[i].at, slack)
  }

  /** The quiet half of the invariant. */
  predicate QuietKept(cfg: Config, s: State, slack: int) {
    && AtMostEarlier(s.pairedAt, s.paired, slack)
    && (cfg.quietHours > 0 ==> Quiet(cfg.quietHours * HOUR, s.accepted, slack))
  }

  /** The cooldown half, of a run that began with the creation `before`. */
  predicate CooldownKept(cfg: Config, before: Time, s: State, slack: int) {
    && AtMostEarlier(s.lastCreate, s.created, slack)
    && s.created == (if s.accepted == [] then before else At(s.accepted[|s.accepted| - 1].at))
    && (cfg.cooldownHours > 0 ==> Spaced(cfg.cooldownHours * HOUR, before, s.accepted, slack))
  }

  lemma OneMoreSpaced(cooldown: int, before: Time, a: seq<Creation>, next: Creation, slack: int)
    requires Spaced(cooldown, before, a, slack) && cooldown >= slack
    requires FarFrom(if a == [] then before else At(a[|a| - 1].at), cooldown, next.at, slack)
    ensures Spaced(cooldown, before, a + [next], slack)
  {
    if a != [] {
      assert FarFrom(before, cooldown, a[|a| - 1].at, slack);
    }
  }

  lemma WholeSeconds(t: int)
    ensures t / SECOND * SECOND <= t < t / SECOND * SECOND + SECOND
  {
  }

  /** What a restart reads back of a persisted time is early by less than a second. */
  lemma ReloadedEarlier(actual: Time, known: Time, slack: int)
    requires AtMostEarlier(known, actual, slack)
    ensures actual.At? ==> AtMostEarlier(Reloaded(Stored(actual.ns)), actual, SECOND - 1)
  {
    if actual.At? {
      WholeSeconds(actual.ns);
    }
  }

  lemma QuietNext(cfg: Config, s: State, e: Event, slack: int)
    requires QuietKept(cfg, s, slack) && 0 <= slack < SECOND && Clocked(e) && (e.Restart? ==> PairFound(s))
    ensures QuietKept(cfg, Next(cfg, s, e), if e.Restart? then SECOND - 1 else slack)
  {
    if e.Restart? {
      ReloadedEarlier(s.paired, s.pairedAt, slack);
    }
  }

  lemma CooldownNext(cfg: Config, before: Time, s: State, e: Event, slack: int)
    requires CooldownKept(cfg, before, s, slack) && 0 <= slack < SECOND && Clocked(e) && (e.Restart? ==> CreateFound(s))
    ensures CooldownKept(cfg, before, Next(cfg, s, e), if e.Restart? then SECOND - 1 else slack)
  {
    if e.Restart? {
      ReloadedEarlier(s.created, s.lastCreate, slack);
    } else if e.Try? && cfg.cooldownHours > 0 && Accepts(cfg, s.pairedAt, s.lastCreate, e) {
      OneMoreSpaced(cfg.cooldownHours * HOUR, before, s.accepted, Creation(e.t3, s.paired), slack);
    }
  }

  lemma SlackNext(events: seq<Event>, e: Event)
    ensures Slack(events + [e]) == if e.Restart? then SECOND - 1 else Slack(events)
  {
  }

  /** The quiet half needs the pairing only, whether or not there is a cooldown. */
  lemma {:induction false} RunKeepsQuiet(cfg: Config, s: State, events: seq<Event>)
    requires s.accepted == [] && AtMostEarlier(s.pairedAt, s.paired, 0)
    requires AllClocked(events) && PairsFound(cfg, s, events)
    ensures QuietKept(cfg, Run(cfg, s, events), Slack(events))
  {
    if events != [] {
      var n := |events| - 1;
      RunKeepsQuiet(cfg, s, events[..n]);
      SlackNext(events[..n], events[n]);
      assert events == events[..n] + [events[n]];
      QuietNext(cfg, Run(cfg, s, events[..n]), events[n], Slack(events[..n]));
    }
  }

  /** The cooldown half needs the creation only, whether or not there is a quiet period. */
  lemma {:induction false} RunKeepsCooldown(cfg: Config, s: State, events: seq<Event>)
    requires s.accepted == [] && AtMostEarlier(s.lastCreate, s.created, 0)
    requires AllClocked(events) && CreatesFound(cfg, s, events)
    ensures CooldownKept(cfg, s.created, Run(cfg, s, events), Slack(events))
  {
    if events != [] {
      var n := |events| - 1;
      RunKeepsCooldown(cfg, s, events[..n]);
      SlackNext(events[..n], events[n]);
      assert events == events[..n] + [events[n]];
      CooldownNext(cfg, s.created, Run(cfg, s, events[..n]), events[n], Slack(events[..n]));
    }
  }

  /** Accepted creations keep the cooldown and the quiet period exactly while the process lives. With any
      number of restarts that find the last creation persisted the cooldown shrinks by less than one
      second, altogether and not for each restart; so does the quiet period with restarts that find the
      last pairing persisted. Either half holds with the other switched off or lost. */
  lemma Spacing(cfg: Config, s: State, events: seq<Event>)
    requires s.accepted == [] && AllClocked(events)
    requires AtMostEarlier(s.pairedAt, s.paired, 0) && AtMostEarlier(s.lastCreate, s.created, 0)
    ensures var a := Run(cfg, s, events).accepted; var slack := if Restart in events then SECOND - 1 else 0;
      && (cfg.cooldownHours > 0 && CreatesFound(cfg, s, events) ==>
           && (forall i, j :: 0 <= i < j < |a| ==> a[j].at >= a[i].at + cfg.cooldownHours * HOUR - slack)
           && (s.created.At? ==>
                forall i :: 0 <= i < |a| ==> a[i].at >= s.created.ns + cfg.cooldownHours * HOUR - slack))
      && (cfg.quietHours > 0 && PairsFound(cfg, s, events) ==>
           forall i :: 0 <= i < |a| && a[i].paired.At? ==>
             a[i].at >= a[i].paired.ns + cfg.quietHours * HOUR - slack)
  {
    var a := Run(cfg, s, events).accepted;
    if CreatesFound(cfg, s, events) {
      RunKeepsCooldown(cfg, s, events);
      assert cfg.cooldownHours > 0 ==>
        forall i :: 0 <= i < |a| ==> FarFrom(s.created, cfg.cooldownHours * HOUR, a[i].at, Slack(events));
    }
    if PairsFound(cfg, s, events) {
      RunKeepsQuiet(cfg, s, events);
      assert cfg.quietHours > 0 ==>
        forall i :: 0 <= i < |a| ==> FarFrom(a[i].paired, cfg.quietHours * HOUR, a[i].at, Slack(events));
    }
  }

  /** The creation check and the status report agree: with one clock reading, an attempt is refused
      exactly when the reported threshold is later than the clock. */
  lemma ReportAgrees(cfg: Config, pairedAt: Time, lastCreate: Time, now: int)
    ensures !Accepts(cfg, pairedAt, lastCreate, Try(now, now, now)) <==>
      Later(AllowedAt(cfg, pairedAt, lastCreate), now)
    ensures now >= SECOND ==>
      (ReportedAt(cfg, pairedAt, lastCreate, now) == 0 <==> Accepts(cfg, pairedAt, lastCreate, Try(now, now, now)))
  {
  }

  /** Retrying at the very second the report gives is accepted exactly when the threshold, the end of
      the quiet period or of the cooldown, falls on a whole second; one second later it always is. */
  lemma ReportedSecondExactly(cfg: Config, pairedAt: Time, lastCreate: Time, now: int)
    requires Later(AllowedAt(cfg, pairedAt, lastCreate), now) && ReportedAt(cfg, pairedAt, lastCreate, now) > 0
    ensures var at := ReportedAt(cfg, pairedAt, lastCreate, now) * SECOND;
      && (Accepts(cfg, pairedAt, lastCreate, Try(at, at, at)) <==>
          AllowedAt(cfg, pairedAt, lastCreate).ns % SECOND == 0)
      && Accepts(cfg, pairedAt, lastCreate, Try(at + SECOND, at + SECOND, at + SECOND))
  {
    var t := AllowedAt(cfg, pairedAt, lastCreate).ns;
    assert t == t / SECOND * SECOND + t % SECOND;
  }

  /** A group created half a second past the first second, with a cooldown of an hour: asked a second
      later, the report names second 3601, and at that second a creation is refused. */
  lemma ReportedSecondTooEarly()
    ensures var cfg, last := Config(0, 1), At(SECOND + SECOND / 2);
      var at := ReportedAt(cfg, Unknown, last, 2 * SECOND);
      at == 3601 && !Accepts(cfg, Unknown, last, Try(at * SECOND, at * SECOND, at * SECOND))
  {
  }

  class Session {
    const cfg: Config
    var pairedAt: Time
    var lastCreate: Time

    constructor (cfg: Config, pairedAt: Time, lastCreate: Time)
      ensures this.cfg == cfg && this.pairedAt == pairedAt && this.lastCreate == lastCreate
    {
      this.cfg, this.pairedAt, this.lastCreate := cfg, pairedAt, lastCreate;
    }

    /** Refuses during the quiet period, then during the cooldown, else stamps the creation. The
        clock is read once for each check and once for the stamp. */
    method CheckGroupCooldown(t1: int, t2: int, t3: int) returns (verdict: Verdict)
      requires t1 <= t2 <= t3
      modifies this`lastCreate
      ensures verdict.Accepted? <==> Accepts(cfg, pairedAt, old(lastCreate), Try(t1, t2, t3))
      ensures var hour := 3_600_000_000_000;
        var quiet := cfg.quietHours > 0 && pairedAt.At? && t1 < pairedAt.ns + cfg.quietHours * hour;
        var cool := cfg.cooldownHours > 0 && old(lastCreate).At? && t2 < old(lastCreate).ns + cfg.cooldownHours * hour;
        && (verdict.Refused? && verdict.reason.QuietPeriod? <==> quiet)
        && (verdict.Refused? && verdict.reason.Cooldown? <==> !quiet && cool)
        && (verdict.Accepted? <==> !quiet && !cool)
      ensures lastCreate == if verdict.Accepted? then At(t3) else old(lastCreate)
      ensures verdict.Refused? && verdict.reason.QuietPeriod? ==>
        pairedAt.At? && verdict.reason.remaining == pairedAt.ns + cfg.quietHours * HOUR - t1 > 0
      ensures verdict.Refused? && verdict.reason.Cooldown? ==>
        lastCreate.At? && verdict.reason.remaining == lastCreate.ns + cfg.cooldownHours * HOUR - t2 > 0
    {
      var quiet := cfg.quietHours * HOUR;
      if quiet > 0 && pairedAt != Unknown {
        var rem := quiet - (t1 - pairedAt.ns);
        if rem > 0 {
          return Refused(QuietPeriod(rem));
        }
      }
      var cool := cfg.cooldownHours * HOUR;
      if cool > 0 && lastCreate != Unknown {
        var rem := cool - (t2 - lastCreate.ns);
        if rem > 0 {
          return Refused(Cooldown(rem));
        }
      }
      lastCreate := At(t3);
      verdict := Accepted;
    }
  }
}
