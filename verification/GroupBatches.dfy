/** Adding participants in paced batches: what is called, and what every participant ends up as. */
module GroupBatches {
  import opened Options
  import opened Phone
  import opened Participants

  const BATCH := 5

  /** One participant of a reply: its user part, the user part of its phone number if it has one, an
      error code (0 for none) and an invite code. */
  datatype Outcome = Outcome(user: string, phoneUser: Option<string>, error: int, invite: Option<string>)

  datatype Reply = Results(outcomes: seq<Outcome>) | RateLimited | Refusal(message: string)

  /** The answer to the k-th add call, and whether the caller has gone while waiting before it. */
  datatype World = World(reply: nat -> Reply, gone: nat -> bool)

  // ---- one reply ----

  /** Settles the pending entries of a batch; every other entry stays as it is. */
  function Settle(statuses: Table, batch: seq<Jid>, state: State, reason: Option<Reason>): (r: Table)
    ensures r.Keys == statuses.Keys
  {
    map k | k in statuses :: if k in UsersOf(batch) then Settled(statuses[k], state, reason) else statuses[k]
  }

  function Settled(s: Status, state: State, reason: Option<Reason>): Status {
    if s.state != Pending then s
    else s.(state := state, reason := if reason.Some? then reason.value else s.reason)
  }

  /** The entry an outcome is about. */
  function Target(people: set<string>, o: Outcome): Option<string> {
    if o.user in people then Some(o.user)
    else if o.phoneUser.Some? && o.phoneUser.value in people then o.phoneUser
    else None
  }

  function Marked(s: Status, o: Outcome): Status {
    if o.error == 0 then s.(state := Added)
    else if o.error == 403 then
      s.(state := Invited, code := 403, reason := ErrorCode(403),
         invite := if o.invite.Some? then o.invite.value else s.invite)
    else if o.error == 409 then s.(state := Exists, code := 409)
    else s.(state := Failed, code := o.error, reason := ErrorCode(o.error))
  }

  function ApplyOne(statuses: Table, o: Outcome): (r: Table)
    ensures r.Keys == statuses.Keys
  {
    match Target(statuses.Keys, o)
    case None => statuses
    case Some(k) => statuses[k := Marked(statuses[k], o)]
  }

  function ApplyAll(statuses: Table, outcomes: seq<Outcome>): (r: Table)
    ensures r.Keys == statuses.Keys
  {
    if outcomes == [] then statuses
    else ApplyOne(ApplyAll(statuses, outcomes[..|outcomes| - 1]), outcomes[|outcomes| - 1])
  }

  /** A batch member the reply does not name has been added. */
  function Apply(statuses: Table, outcomes: seq<Outcome>, batch: seq<Jid>): (r: Table)
    ensures r.Keys == statuses.Keys
  {
    Settle(ApplyAll(statuses, outcomes), batch, Added, None)
  }

  /** What a reply to a call for batch makes of the table; a rate limit also covers the participants
      not yet called for. */
  function Effect(statuses: Table, reply: Reply, batch: seq<Jid>, all: seq<Jid>): (r: Table)
    ensures r.Keys == statuses.Keys
  {
    match reply
    case Results(outcomes) => Apply(statuses, outcomes, batch)
    case RateLimited => Settle(statuses, all, Failed, Some(OverLimit))
    case Refusal(message) => Settle(statuses, batch, Failed, Some(Refused(message)))
  }

  // ---- the paced loop ----

  /** How the loop ended: through, the caller gone with some participants left, or rate limited. */
  datatype End = Done | Gone(leftover: seq<Jid>) | Limited

  datatype Run = Run(statuses: Table, calls: seq<seq<Jid>>, end: End)

  function Len(jids: seq<Jid>): nat {
    if |jids| < BATCH then |jids| else BATCH
  }

  function Paced(statuses: Table, jids: seq<Jid>, k: nat, w: World): (r: Run)
    ensures r.statuses.Keys == statuses.Keys
    decreases |jids|
  {
    if jids == [] then Run(statuses, [], Done)
    else
      var batch, rest := jids[..Len(jids)], jids[Len(jids)..];
      if k > 0 && w.gone(k) then Run(Settle(statuses, batch, Failed, Some(Cancelled)), [], Gone(rest))
      else
        var after := Effect(statuses, w.reply(k), batch, jids);
        if w.reply(k).RateLimited? then Run(after, [batch], Limited)
        else Called(batch, Paced(after, rest, k + 1, w))
  }

  function Called(batch: seq<Jid>, r: Run): Run {
    r.(calls := [batch] + r.calls)
  }

  // ---- the calls ----

  function Flat(calls: seq<seq<Jid>>): seq<Jid> {
    if calls == [] then [] else calls[0] + Flat(calls[1..])
  }

  /** Full batches of five, then one that may be shorter. */
  predicate FullBatches(calls: seq<seq<Jid>>) {
    forall i :: 0 <= i < |calls| ==> 1 <= |calls[i]| <= 5 && (i < |calls| - 1 ==> |calls[i]| == 5)
  }

  /** The calls are the participants in order: all of them, or all up to where the loop ended. */
  ghost predicate Uncalled(r: Run, jids: seq<Jid>) {
    && |Flat(r.calls)| <= |jids|
    && Flat(r.calls) == jids[..|Flat(r.calls)|]
    && (r.end.Done? ==> Flat(r.calls) == jids)
    && (r.end.Gone? ==> exists batch :: 1 <= |batch| <= 5 && jids == Flat(r.calls) + batch + r.end.leftover)
  }

  /** The batches are the participants in order, without gap or overlap, until the loop ends. */
  lemma {:induction false} BatchesConcatenate(statuses: Table, jids: seq<Jid>, k: nat, w: World)
    ensures var r := Paced(statuses, jids, k, w);
            FullBatches(r.calls) && Uncalled(r, jids)
    decreases |jids|
  {
    var batch, rest := jids[..Len(jids)], jids[Len(jids)..];
    if jids != [] && !(k > 0 && w.gone(k)) && !w.reply(k).RateLimited? {
      var after := Effect(statuses, w.reply(k), batch, jids);
      var r := Paced(after, rest, k + 1, w);
      BatchesConcatenate(after, rest, k + 1, w);
      CalledBatches(jids, batch, rest, r);
    } else {
      assert jids != [] ==> jids == [] + batch + rest;
      assert Flat([batch]) == batch + Flat([]);
    }
  }

  lemma CalledBatches(jids: seq<Jid>, batch: seq<Jid>, rest: seq<Jid>, r: Run)
    requires jids == batch + rest && 1 <= |batch| <= BATCH && (rest != [] ==> |batch| == BATCH)
    requires FullBatches(r.calls) && Uncalled(r, rest)
    ensures FullBatches(Called(batch, r).calls) && Uncalled(Called(batch, r), jids)
  {
    var c := Called(batch, r);
    assert c.calls[0] == batch && c.calls[1..] == r.calls;
    assert Flat(c.calls) == batch + Flat(r.calls);
    CalledFull(batch, rest, r);
    if r.end.Gone? {
      var b :| 1 <= |b| <= BATCH && rest == Flat(r.calls) + b + r.end.leftover;
      assert jids == Flat(c.calls) + b + c.end.leftover;
    }
  }

  /** A short batch is the last one. */
  lemma CalledFull(batch: seq<Jid>, rest: seq<Jid>, r: Run)
    requires 1 <= |batch| <= BATCH && (rest != [] ==> |batch| == BATCH)
    requires FullBatches(r.calls) && Uncalled(r, rest)
    ensures FullBatches([batch] + r.calls)
  {
    if r.calls != [] {
      assert 1 <= |r.calls[0]|;
      assert Flat(r.calls) == r.calls[0] + Flat(r.calls[1..]);
    }
  }

  /** No call follows a rate limit, and a stop has its cause: the last call was rate limited, or the
      caller had gone before the next one. */
  lemma {:induction false} StopsHaveCauses(statuses: Table, jids: seq<Jid>, k: nat, w: World, j: nat)
    ensures var r := Paced(statuses, jids, k, w);
            j < |r.calls| && w.reply(k + j).RateLimited? ==> j == |r.calls| - 1 && r.end.Limited?
    ensures var r := Paced(statuses, jids, k, w);
            r.end.Limited? ==> r.calls != [] && w.reply(k + |r.calls| - 1).RateLimited?
    ensures var r := Paced(statuses, jids, k, w);
            r.end.Gone? ==> k + |r.calls| > 0 && w.gone(k + |r.calls|)
    decreases |jids|
  {
    if jids != [] && !(k > 0 && w.gone(k)) && !w.reply(k).RateLimited? {
      var batch, rest := jids[..Len(jids)], jids[Len(jids)..];
      var after := Effect(statuses, w.reply(k), batch, jids);
      StopsHaveCauses(after, rest, k + 1, w, if j == 0 then 0 else j - 1);
    }
  }

  // ---- what every step keeps ----

  predicate NothingReopened(a: Table, b: Table) {
    SamePeople(a, b) && forall k :: k in a && a[k].state != Pending ==> b[k].state != Pending
  }

  lemma {:induction false} ApplyAllReopensNothing(statuses: Table, outcomes: seq<Outcome>)
    ensures NothingReopened(statuses, ApplyAll(statuses, outcomes))
  {
    if outcomes != [] {
      ApplyAllReopensNothing(statuses, outcomes[..|outcomes| - 1]);
    }
  }

  lemma EffectReopensNothing(statuses: Table, reply: Reply, batch: seq<Jid>, all: seq<Jid>)
    requires UsersOf(batch) <= UsersOf(all)
    ensures NothingReopened(statuses, Effect(statuses, reply, batch, all))
    ensures forall k :: k in statuses && k in UsersOf(batch) ==> Effect(statuses, reply, batch, all)[k].state != Pending
  {
    if reply.Results? {
      ApplyAllReopensNothing(statuses, reply.outcomes);
    }
  }

  lemma UsersOfParts(jids: seq<Jid>, n: nat)
    requires n <= |jids|
    ensures UsersOf(jids) == UsersOf(jids[..n]) + UsersOf(jids[n..])
  {
    assert jids == jids[..n] + jids[n..];
  }

  /** Whatever the server answers, nobody is pending afterwards except the participants left over
      when the caller had gone. */
  lemma {:induction false} OnlyLeftoverPending(statuses: Table, jids: seq<Jid>, k: nat, w: World)
    ensures NothingReopened(statuses, Paced(statuses, jids, k, w).statuses)
    ensures var r := Paced(statuses, jids, k, w);
            forall u :: u in statuses && u in UsersOf(jids) && r.statuses[u].state == Pending ==>
              r.end.Gone? && u in UsersOf(r.end.leftover)
    decreases |jids|
  {
    if jids != [] {
      var n := Len(jids);
      UsersOfParts(jids, n);
      EffectReopensNothing(statuses, w.reply(k), jids[..n], jids);
      if !(k > 0 && w.gone(k)) && !w.reply(k).RateLimited? {
        OnlyLeftoverPending(Effect(statuses, w.reply(k), jids[..n], jids), jids[n..], k + 1, w);
      }
    }
  }

  // ---- every participant is what its own batch's reply says ----

  /** The outcome is about entry u: it names u, or it names nobody who has an entry and carries u as the
      phone number. */
  predicate About(people: set<string>, o: Outcome, u: string) {
    u in people && (o.user == u || (o.user !in people && o.phoneUser == Some(u)))
  }

  lemma TargetIsAbout(people: set<string>, o: Outcome, u: string)
    ensures Target(people, o) == Some(u) <==> About(people, o, u)
  {
  }

  /** A reply names nobody outside its batch. */
  ghost predicate Names(people: set<string>, reply: Reply, batch: seq<Jid>) {
    reply.Results? ==> forall i, u :: 0 <= i < |reply.outcomes| && About(people, reply.outcomes[i], u) ==>
      u in UsersOf(batch)
  }

  ghost predicate Faithful(people: set<string>, jids: seq<Jid>, k: nat, w: World)
    decreases |jids|
  {
    jids != [] ==> Names(people, w.reply(k), jids[..Len(jids)]) && Faithful(people, jids[Len(jids)..], k + 1, w)
  }

  lemma {:induction false} ApplyAllFrame(statuses: Table, outcomes: seq<Outcome>, batch: seq<Jid>, u: string)
    requires Names(statuses.Keys, Results(outcomes), batch) && u in statuses && u !in UsersOf(batch)
    ensures u in ApplyAll(statuses, outcomes) && ApplyAll(statuses, outcomes)[u] == statuses[u]
  {
    if outcomes != [] {
      var n := |outcomes| - 1;
      assert Names(statuses.Keys, Results(outcomes[..n]), batch);
      ApplyAllFrame(statuses, outcomes[..n], batch, u);
      ApplyAllReopensNothing(statuses, outcomes[..n]);
      TargetIsAbout(statuses.Keys, outcomes[n], u);
    }
  }

  lemma EffectFrame(statuses: Table, reply: Reply, batch: seq<Jid>, all: seq<Jid>, u: string)
    requires Names(statuses.Keys, reply, batch) && UsersOf(batch) <= UsersOf(all) && u in statuses
    requires if reply.RateLimited? then u !in UsersOf(all) else u !in UsersOf(batch)
    ensures u in Effect(statuses, reply, batch, all) && Effect(statuses, reply, batch, all)[u] == statuses[u]
  {
    if reply.Results? {
      ApplyAllFrame(statuses, reply.outcomes, batch, u);
    }
  }

  lemma {:induction false} PacedFrame(statuses: Table, jids: seq<Jid>, k: nat, w: World, u: string)
    requires Faithful(statuses.Keys, jids, k, w) && u in statuses && u !in UsersOf(jids)
    ensures u in Paced(statuses, jids, k, w).statuses && Paced(statuses, jids, k, w).statuses[u] == statuses[u]
    decreases |jids|
  {
    if jids != [] {
      var n := Len(jids);
      UsersOfParts(jids, n);
      EffectFrame(statuses, w.reply(k), jids[..n], jids, u);
      EffectReopensNothing(statuses, w.reply(k), jids[..n], jids);
      if !(k > 0 && w.gone(k)) && !w.reply(k).RateLimited? {
        PacedFrame(Effect(statuses, w.reply(k), jids[..n], jids), jids[n..], k + 1, w, u);
      }
    }
  }

  /** What a list of outcomes makes of the entry of u. */
  function Outcomes(entry: Status, people: set<string>, outcomes: seq<Outcome>, u: string): Status {
    if outcomes == [] then entry
    else
      var before := Outcomes(entry, people, outcomes[..|outcomes| - 1], u);
      if Target(people, outcomes[|outcomes| - 1]) == Some(u) then Marked(before, outcomes[|outcomes| - 1]) else before
  }

  /** What the reply to a call makes of the entry of a participant it was made for. */
  function EntryAfter(entry: Status, people: set<string>, reply: Reply, u: string): Status {
    match reply
    case Results(outcomes) => Settled(Outcomes(entry, people, outcomes, u), Added, None)
    case RateLimited => Settled(entry, Failed, Some(OverLimit))
    case Refusal(message) => Settled(entry, Failed, Some(Refused(message)))
  }

  lemma {:induction false} ApplyAllEntry(statuses: Table, outcomes: seq<Outcome>, u: string)
    requires u in statuses
    ensures ApplyAll(statuses, outcomes)[u] == Outcomes(statuses[u], statuses.Keys, outcomes, u)
  {
    if outcomes != [] {
      ApplyAllEntry(statuses, outcomes[..|outcomes| - 1], u);
    }
  }

  lemma EffectEntry(statuses: Table, reply: Reply, batch: seq<Jid>, all: seq<Jid>, u: string)
    requires u in statuses && u in UsersOf(batch) && UsersOf(batch) <= UsersOf(all)
    ensures Effect(statuses, reply, batch, all)[u] == EntryAfter(statuses[u], statuses.Keys, reply, u)
  {
    if reply.Results? {
      ApplyAllEntry(statuses, reply.outcomes, u);
    }
  }

  /** Outcome k is the last one about u. */
  predicate IsLast(people: set<string>, outcomes: seq<Outcome>, k: nat, u: string) {
    && k < |outcomes| && About(people, outcomes[k], u)
    && forall j :: k < j < |outcomes| ==> !About(people, outcomes[j], u)
  }

  predicate Unnamed(people: set<string>, outcomes: seq<Outcome>, u: string) {
    forall j :: 0 <= j < |outcomes| ==> !About(people, outcomes[j], u)
  }

  /** What an outcome's error code leaves of an entry: 0 added, 403 invited with the code to send, 409 a
      member already, and any other code failed. */
  predicate MarkedBy(o: Outcome, was: Status, after: Status) {
    && after.phone == was.phone && after.jid == was.jid
    && (o.error == 0 ==> after.state == Added)
    && (o.error == 403 ==>
         && after.state == Invited && after.code == 403 && after.reason == ErrorCode(403)
         && (o.invite.Some? ==> after.invite == o.invite.value))
    && (o.error == 409 ==> after.state == Exists && after.code == 409)
    && (o.error !in {0, 403, 409} ==>
         after.state == Failed && after.code == o.error && after.reason == ErrorCode(o.error))
  }

  /** The entry after a reply: as the last outcome about it says; unnamed, it is added when it was pending
      in the batch, and keeps everything otherwise. */
  ghost predicate Answered(people: set<string>, outcomes: seq<Outcome>, inBatch: bool, was: Status, after: Status,
                           u: string)
  {
    && (forall k: nat :: IsLast(people, outcomes, k, u) ==> MarkedBy(outcomes[k], was, after))
    && (Unnamed(people, outcomes, u) ==>
         after == if inBatch && was.state == Pending then was.(state := Added) else was)
  }

  lemma {:induction false} OutcomesAnswer(entry: Status, people: set<string>, outcomes: seq<Outcome>, u: string)
    ensures Answered(people, outcomes, false, entry, Outcomes(entry, people, outcomes, u), u)
    ensures !Unnamed(people, outcomes, u) ==> Outcomes(entry, people, outcomes, u).state != Pending
    ensures Outcomes(entry, people, outcomes, u).phone == entry.phone
    ensures Outcomes(entry, people, outcomes, u).jid == entry.jid
  {
    if outcomes != [] {
      var n := |outcomes| - 1;
      OutcomesAnswer(entry, people, outcomes[..n], u);
      TargetIsAbout(people, outcomes[n], u);
      assert outcomes == outcomes[..n] + [outcomes[n]];
      forall k: nat | IsLast(people, outcomes, k, u)
        ensures MarkedBy(outcomes[k], entry, Outcomes(entry, people, outcomes, u))
      {
        assert k < n ==> IsLast(people, outcomes[..n], k, u);
      }
    }
  }

  /** After a reply every entry is what the last outcome about it says, about whom an outcome is being
      decided by its user part and else by its phone number. */
  lemma LastOutcomeDecides(statuses: Table, outcomes: seq<Outcome>, batch: seq<Jid>, u: string)
    requires u in statuses
    ensures Answered(statuses.Keys, outcomes, u in UsersOf(batch), statuses[u],
                     Apply(statuses, outcomes, batch)[u], u)
  {
    ApplyAllEntry(statuses, outcomes, u);
    OutcomesAnswer(statuses[u], statuses.Keys, outcomes, u);
    var before, after := Outcomes(statuses[u], statuses.Keys, outcomes, u), Apply(statuses, outcomes, batch)[u];
    if !Unnamed(statuses.Keys, outcomes, u) {
      assert after == before;
    }
  }

  /** The entry after the reply to its own call: as the outcomes say, or failed with the limit or the
      refusal when it was still pending. */
  ghost predicate Replied(people: set<string>, reply: Reply, was: Status, after: Status, u: string) {
    match reply
    case Results(outcomes) => Answered(people, outcomes, true, was, after, u)
    case RateLimited => after == if was.state == Pending then was.(state := Failed, reason := OverLimit) else was
    case Refusal(message) =>
      after == if was.state == Pending then was.(state := Failed, reason := Refused(message)) else was
  }

  lemma EntryReplied(entry: Status, people: set<string>, reply: Reply, u: string)
    ensures Replied(people, reply, entry, EntryAfter(entry, people, reply, u), u)
  {
    if reply.Results? {
      OutcomesAnswer(entry, people, reply.outcomes, u);
      var before := Outcomes(entry, people, reply.outcomes, u);
      if !Unnamed(people, reply.outcomes, u) {
        assert EntryAfter(entry, people, reply, u) == before;
      }
    }
  }

  /** The j-th call of the run is made for u, among others. */
  predicate CalledFor(statuses: Table, jids: seq<Jid>, k: nat, w: World, j: nat, u: string) {
    && j < |Paced(statuses, jids, k, w).calls|
    && u in statuses && u in UsersOf(Paced(statuses, jids, k, w).calls[j])
  }

  lemma {:induction false} OwnReplyEntry(statuses: Table, jids: seq<Jid>, k: nat, w: World, j: nat, u: string)
    requires DistinctUsers(jids) && Faithful(statuses.Keys, jids, k, w)
    requires CalledFor(statuses, jids, k, w, j, u)
    ensures Paced(statuses, jids, k, w).statuses[u] == EntryAfter(statuses[u], statuses.Keys, w.reply(k + j), u)
    decreases |jids|
  {
    if j == 0 {
      FirstReplyDecides(statuses, jids, k, w, u);
    } else {
      var after, rest := LaterCall(statuses, jids, k, w, j, u);
      OwnReplyEntry(after, rest, k + 1, w, j - 1, u);
    }
  }

  /** Batches neither disturb nor anticipate one another: a participant called for ends as the reply
      to its own call says of the entry it had before the whole run. */
  lemma OwnReplyDecides(statuses: Table, jids: seq<Jid>, k: nat, w: World, j: nat, u: string)
    requires DistinctUsers(jids) && Faithful(statuses.Keys, jids, k, w)
    requires CalledFor(statuses, jids, k, w, j, u)
    ensures Replied(statuses.Keys, w.reply(k + j), statuses[u], Paced(statuses, jids, k, w).statuses[u], u)
  {
    OwnReplyEntry(statuses, jids, k, w, j, u);
    EntryReplied(statuses[u], statuses.Keys, w.reply(k + j), u);
  }

  /** Those the loop never calls for fail when they were pending: with the limit when a call was rate
      limited, and as cancelled when the caller had gone, up to the leftover. */
  lemma {:induction false} UncalledDecides(statuses: Table, jids: seq<Jid>, k: nat, w: World, u: string)
    requires DistinctUsers(jids) && Faithful(statuses.Keys, jids, k, w)
    requires u in UsersOf(jids) && u in statuses && u !in UsersOf(Flat(Paced(statuses, jids, k, w).calls))
    ensures var r := Paced(statuses, jids, k, w); var was, after := statuses[u], r.statuses[u];
      && !r.end.Done?
      && (r.end.Limited? ==> after == if was.state == Pending then was.(state := Failed, reason := OverLimit) else was)
      && (r.end.Gone? && u !in UsersOf(r.end.leftover) ==>
           after == if was.state == Pending then was.(state := Failed, reason := Cancelled) else was)
    decreases |jids|
  {
    var n := Len(jids);
    var r := Paced(statuses, jids, k, w);
    UsersOfParts(jids, n);
    if k > 0 && w.gone(k) {
      assert r == Run(Settle(statuses, jids[..n], Failed, Some(Cancelled)), [], Gone(jids[n..]));
    } else if w.reply(k).RateLimited? {
      assert r == Run(Settle(statuses, jids, Failed, Some(OverLimit)), [jids[..n]], Limited);
    } else {
      var after := Effect(statuses, w.reply(k), jids[..n], jids);
      var rest := Paced(after, jids[n..], k + 1, w);
      assert r == Called(jids[..n], rest);
      FlatCalled(jids[..n], rest);
      DistinctRest(jids, n);
      EffectFrame(statuses, w.reply(k), jids[..n], jids, u);
      UncalledDecides(after, jids[n..], k + 1, w, u);
    }
  }

  lemma FlatCalled(batch: seq<Jid>, r: Run)
    ensures UsersOf(Flat(Called(batch, r).calls)) == UsersOf(batch) + UsersOf(Flat(r.calls))
  {
    assert Called(batch, r).calls[1..] == r.calls;
    assert Flat(Called(batch, r).calls) == batch + Flat(r.calls);
  }

  /** What comes after the first of several calls. */
  lemma PacedRest(statuses: Table, jids: seq<Jid>, k: nat, w: World)
    requires |Paced(statuses, jids, k, w).calls| > 1
    ensures var after := Effect(statuses, w.reply(k), jids[..Len(jids)], jids);
            Paced(statuses, jids, k, w) == Called(jids[..Len(jids)], Paced(after, jids[Len(jids)..], k + 1, w))
    ensures |jids[Len(jids)..]| < |jids|
  {
  }

  /** A later call seen from the table after the first one. */
  lemma LaterCall(statuses: Table, jids: seq<Jid>, k: nat, w: World, j: nat, u: string)
    returns (after: Table, rest: seq<Jid>)
    requires DistinctUsers(jids) && Faithful(statuses.Keys, jids, k, w)
    requires j > 0 && CalledFor(statuses, jids, k, w, j, u)
    ensures DistinctUsers(rest) && Faithful(after.Keys, rest, k + 1, w) && |rest| < |jids|
    ensures CalledFor(after, rest, k + 1, w, j - 1, u)
    ensures after.Keys == statuses.Keys && after[u] == statuses[u]
    ensures Paced(statuses, jids, k, w).statuses == Paced(after, rest, k + 1, w).statuses
  {
    rest := jids[Len(jids)..];
    after := Effect(statuses, w.reply(k), jids[..Len(jids)], jids);
    PacedRest(statuses, jids, k, w);
    DistinctRest(jids, Len(jids));
    LaterUntouched(statuses, jids, k, w, j, u);
  }

  lemma FirstReplyDecides(statuses: Table, jids: seq<Jid>, k: nat, w: World, u: string)
    requires DistinctUsers(jids) && Faithful(statuses.Keys, jids, k, w)
    requires CalledFor(statuses, jids, k, w, 0, u)
    ensures Paced(statuses, jids, k, w).statuses[u] == EntryAfter(statuses[u], statuses.Keys, w.reply(k), u)
  {
    var n := Len(jids);
    UsersOfParts(jids, n);
    DistinctParts(jids, n, u);
    EffectEntry(statuses, w.reply(k), jids[..n], jids, u);
    if !w.reply(k).RateLimited? {
      PacedFrame(Effect(statuses, w.reply(k), jids[..n], jids), jids[n..], k + 1, w, u);
    }
  }

  /** A call leaves the participants of the later calls alone. */
  lemma LaterUntouched(statuses: Table, jids: seq<Jid>, k: nat, w: World, j: nat, u: string)
    requires DistinctUsers(jids) && Faithful(statuses.Keys, jids, k, w)
    requires j > 0 && CalledFor(statuses, jids, k, w, j, u)
    ensures Effect(statuses, w.reply(k), jids[..Len(jids)], jids)[u] == statuses[u]
  {
    var n := Len(jids);
    var after := Effect(statuses, w.reply(k), jids[..n], jids);
    CalledAreListed(after, jids[n..], k + 1, w, j - 1, u);
    DistinctParts(jids, n, u);
    UsersOfParts(jids, n);
    EffectFrame(statuses, w.reply(k), jids[..n], jids, u);
  }

  lemma DistinctRest(jids: seq<Jid>, n: nat)
    requires DistinctUsers(jids) && n <= |jids|
    ensures DistinctUsers(jids[n..])
  {
  }

  lemma DistinctParts(jids: seq<Jid>, n: nat, u: string)
    requires DistinctUsers(jids) && n <= |jids|
    ensures u in UsersOf(jids[..n]) ==> u !in UsersOf(jids[n..])
  {
    assert forall i :: 0 <= i < n ==> jids[..n][i] == jids[i];
    assert forall i :: 0 <= i < |jids| - n ==> jids[n..][i] == jids[n + i];
  }

  lemma CalledAreListed(statuses: Table, jids: seq<Jid>, k: nat, w: World, j: nat, u: string)
    requires j < |Paced(statuses, jids, k, w).calls| && u in UsersOf(Paced(statuses, jids, k, w).calls[j])
    ensures u in UsersOf(jids)
  {
    var r := Paced(statuses, jids, k, w);
    BatchesConcatenate(statuses, jids, k, w);
    InFlat(r.calls, j, u);
  }

  lemma {:induction false} InFlat(calls: seq<seq<Jid>>, j: nat, u: string)
    requires j < |calls| && u in UsersOf(calls[j])
    ensures u in UsersOf(Flat(calls))
  {
    if j == 0 {
      var i :| 0 <= i < |calls[0]| && calls[0][i].user == u;
      assert Flat(calls)[i].user == u;
    } else {
      InFlat(calls[1..], j - 1, u);
      var i :| 0 <= i < |Flat(calls[1..])| && Flat(calls[1..])[i].user == u;
      assert Flat(calls)[|calls[0]| + i].user == u;
    }
  }

  /** With such replies the leftover is untouched, so it is exactly what stays pending. */
  lemma {:induction false} LeftoverUntouched(statuses: Table, jids: seq<Jid>, k: nat, w: World, u: string)
    requires DistinctUsers(jids) && Faithful(statuses.Keys, jids, k, w)
    requires Paced(statuses, jids, k, w).end.Gone?
    requires u in UsersOf(Paced(statuses, jids, k, w).end.leftover) && u in statuses
    ensures var r := Paced(statuses, jids, k, w);
            u in r.statuses && r.statuses[u] == statuses[u] && u in UsersOf(jids)
    decreases |jids|
  {
    var n := Len(jids);
    UsersOfParts(jids, n);
    if !(k > 0 && w.gone(k)) {
      var after := Effect(statuses, w.reply(k), jids[..n], jids);
      EffectReopensNothing(statuses, w.reply(k), jids[..n], jids);
      DistinctRest(jids, n);
      LeftoverUntouched(after, jids[n..], k + 1, w, u);
      DistinctParts(jids, n, u);
      EffectFrame(statuses, w.reply(k), jids[..n], jids, u);
    } else {
      DistinctParts(jids, n, u);
    }
  }

  // ---- creating a group ----

  /** The group is created with the first batch; the others are paced. */
  function CreateRun(statuses: Table, jids: seq<Jid>, created: seq<Outcome>, w: World): Run {
    var first, rest := jids[..Len(jids)], jids[Len(jids)..];
    Called(first, Paced(Apply(statuses, created, first), rest, 0, w))
  }

  lemma NobodyToPace(statuses: Table, k: nat, w: World)
    ensures Called([], Paced(statuses, [], k, w)) == Run(statuses, [[]], Done)
    ensures Flat([[]]) == []
  {
    assert [[]] + Paced(statuses, [], k, w).calls == [[]];
  }

  /** Creation and paced batches together are exactly the resolved participants, five at a time. */
  lemma CreationConcatenates(statuses: Table, jids: seq<Jid>, created: seq<Outcome>, w: World)
    ensures Uncalled(CreateRun(statuses, jids, created, w), jids)
    ensures AtMostFive(CreateRun(statuses, jids, created, w).calls)
  {
    var n := Len(jids);
    var after := Apply(statuses, created, jids[..n]);
    if jids == [] {
      assert jids[..n] == [] && jids[n..] == [];
      NobodyToPace(after, 0, w);
    } else {
      BatchesConcatenate(after, jids[n..], 0, w);
      CalledBatches(jids, jids[..n], jids[n..], Paced(after, jids[n..], 0, w));
    }
  }

  predicate AtMostFive(calls: seq<seq<Jid>>) {
    forall i :: 0 <= i < |calls| ==> |calls[i]| <= 5
  }

  /** After a creation, the members of its own batch are what the creation's results say of them. */
  lemma CreationDecides(statuses: Table, jids: seq<Jid>, created: seq<Outcome>, w: World, u: string)
    requires DistinctUsers(jids) && Faithful(statuses.Keys, jids[Len(jids)..], 0, w)
    requires u in statuses && u in UsersOf(jids[..Len(jids)])
    ensures Answered(statuses.Keys, created, true, statuses[u], CreateRun(statuses, jids, created, w).statuses[u], u)
  {
    var n := Len(jids);
    var after := Apply(statuses, created, jids[..n]);
    LastOutcomeDecides(statuses, created, jids[..n], u);
    DistinctParts(jids, n, u);
    PacedFrame(after, jids[n..], 0, w, u);
  }

  lemma CreationKeepsPeople(statuses: Table, jids: seq<Jid>, created: seq<Outcome>, w: World)
    ensures SamePeople(statuses, CreateRun(statuses, jids, created, w).statuses)
  {
    var n := Len(jids);
    UsersOfParts(jids, n);
    EffectReopensNothing(statuses, Results(created), jids[..n], jids);
    OnlyLeftoverPending(Apply(statuses, created, jids[..n]), jids[n..], 0, w);
  }

  /** For every parser, nobody is reported as pending after a creation unless the caller had gone and left
      that participant over. */
  lemma CreationSettlesAll(phones: seq<string>, parse: Parser, created: seq<Outcome>, w: World)
    ensures var res := Resolve(phones, parse);
            var r := CreateRun(res.statuses, res.jids, created, w);
            forall u :: u in r.statuses && r.statuses[u].state == Pending ==>
              r.end.Gone? && u in UsersOf(r.end.leftover)
  {
    var res := Resolve(phones, parse);
    var n := Len(res.jids);
    var first, rest := res.jids[..n], res.jids[n..];
    UsersOfParts(res.jids, n);
    ResolvedPending(phones, parse);
    EffectReopensNothing(res.statuses, Results(created), first, res.jids);
    OnlyLeftoverPending(Apply(res.statuses, created, first), rest, 0, w);
  }

  /** Likewise after adding participants to a group that exists. */
  lemma AddingSettlesAll(phones: seq<string>, parse: Parser, w: World)
    ensures var res := Resolve(phones, parse);
            var r := Paced(res.statuses, res.jids, 0, w);
            && SamePeople(res.statuses, r.statuses)
            && forall u :: u in r.statuses && r.statuses[u].state == Pending ==>
                 r.end.Gone? && u in UsersOf(r.end.leftover)
  {
    var res := Resolve(phones, parse);
    ResolvedPending(phones, parse);
    OnlyLeftoverPending(res.statuses, res.jids, 0, w);
  }

  /** For every parser, the answer to a creation names nobody twice and exactly the entries that
      ListedExactly describes; without a clash that is every participant, in order of first mention. */
  lemma CreationListed(phones: seq<string>, parse: Parser, created: seq<Outcome>, w: World)
    ensures var res := Resolve(phones, parse);
            var statuses := CreateRun(res.statuses, res.jids, created, w).statuses;
            && Unambiguous(statuses) && Distinct(ListedKeys(statuses, phones))
            && (forall k :: k in statuses ==> (k in ListedKeys(statuses, phones) <==>
                 RawKey(statuses[k].phone) !in statuses || exists p :: Mentioned(phones, p) && RawKey(p) == k))
    ensures var res := Resolve(phones, parse);
            var statuses := CreateRun(res.statuses, res.jids, created, w).statuses;
            NoClash(phones, parse) ==> ListedKeys(statuses, phones) == FirstMentions(phones, parse)
  {
    var res := Resolve(phones, parse);
    var statuses := CreateRun(res.statuses, res.jids, created, w).statuses;
    CreationKeepsPeople(res.statuses, res.jids, created, w);
    ListedInAnyCase(phones, parse, statuses);
  }

  lemma ListedInAnyCase(phones: seq<string>, parse: Parser, statuses: Table)
    requires SamePeople(Resolve(phones, parse).statuses, statuses)
    ensures Unambiguous(statuses) && Distinct(ListedKeys(statuses, phones))
    ensures forall k :: k in statuses ==> (k in ListedKeys(statuses, phones) <==>
      RawKey(statuses[k].phone) !in statuses || exists p :: Mentioned(phones, p) && RawKey(p) == k)
    ensures NoClash(phones, parse) ==> ListedKeys(statuses, phones) == FirstMentions(phones, parse)
  {
    ResolvedUnambiguous(phones, parse, statuses);
    ListedDistinct(statuses, phones);
    forall k | k in statuses ensures k in ListedKeys(statuses, phones) <==>
      RawKey(statuses[k].phone) !in statuses || exists p :: Mentioned(phones, p) && RawKey(p) == k
    {
      ListedExactly(phones, parse, statuses, k);
    }
    if NoClash(phones, parse) {
      ListedExactlyOnce(phones, parse, statuses);
    }
  }
}
