/** The loops that add participants, over the status table they update in place. */
module GroupCall {
  import opened Options
  import opened Phone
  import opened Participants
  import opened GroupBatches

  class Statuses {
    var table: Table
    ghost var calls: seq<seq<Jid>>

    constructor (table: Table)
      ensures this.table == table && calls == []
    {
      this.table := table;
      calls := [];
    }

    method MarkPending(batch: seq<Jid>, reason: Reason)
      modifies this`table
      ensures table == Settle(old(table), batch, Failed, Some(reason))
      ensures table.Keys == old(table).Keys && forall u :: u in table ==>
        table[u] == if old(table)[u].state == Pending && exists i :: 0 <= i < |batch| && batch[i].user == u
                    then old(table)[u].(state := Failed, reason := reason) else old(table)[u]
    {
      for i := 0 to |batch|
        invariant table == Settle(old(table), batch[..i], Failed, Some(reason))
      {
        UsersOfNext(batch, i);
        var u := batch[i].user;
        if u in table && table[u].state == Pending {
          table := table[u := table[u].(state := Failed, reason := reason)];
        }
      }
      assert batch[..|batch|] == batch;
    }

    method ApplyParticipantResults(outcomes: seq<Outcome>, batch: seq<Jid>)
      modifies this`table
      ensures table == Apply(old(table), outcomes, batch)
      ensures table.Keys == old(table).Keys && forall u :: u in table ==>
        Answered(table.Keys, outcomes, u in UsersOf(batch), old(table)[u], table[u], u)
    {
      for i := 0 to |outcomes|
        invariant table == ApplyAll(old(table), outcomes[..i])
      {
        assert outcomes[..i + 1][..i] == outcomes[..i];
        var o := outcomes[i];
        var key := "";
        if o.user in table {
          key := o.user;
        } else if o.phoneUser.Some? && o.phoneUser.value in table {
          key := o.phoneUser.value;
        } else {
          continue;
        }
        var s := table[key];
        if o.error == 0 {
          s := s.(state := Added);
        } else if o.error == 403 {
          s := s.(state := Invited, code := o.error, reason := ErrorCode(o.error));
          if o.invite.Some? {
            s := s.(invite := o.invite.value);
          }
        } else if o.error == 409 {
          s := s.(state := Exists, code := o.error);
        } else {
          s := s.(state := Failed, code := o.error, reason := ErrorCode(o.error));
        }
        table := table[key := s];
      }
      assert outcomes[..|outcomes|] == outcomes;
      AddTheRest(batch);
      forall u | u in table ensures Answered(table.Keys, outcomes, u in UsersOf(batch), old(table)[u], table[u], u) {
        LastOutcomeDecides(old(table), outcomes, batch, u);
      }
    }

    /** The batch members the reply did not name. */
    method AddTheRest(batch: seq<Jid>)
      modifies this`table
      ensures table == Settle(old(table), batch, Added, None)
    {
      for i := 0 to |batch|
        invariant table == Settle(old(table), batch[..i], Added, None)
      {
        UsersOfNext(batch, i);
        var u := batch[i].user;
        if u in table && table[u].state == Pending {
          table := table[u := table[u].(state := Added)];
        }
      }
      assert batch[..|batch|] == batch;
    }

    /** One add call for batch, with its reply; left are the participants from this batch on. */
    method Call(batch: seq<Jid>, left: seq<Jid>, reply: Reply)
      modifies this
      ensures table == Effect(old(table), reply, batch, left)
      ensures calls == old(calls) + [batch]
    {
      calls := calls + [batch];
      match reply {
        case RateLimited =>
          MarkPending(left, OverLimit);
        case Refusal(message) =>
          MarkPending(batch, Refused(message));
        case Results(outcomes) =>
          ApplyParticipantResults(outcomes, batch);
      }
    }

    method AddParticipantsPaced(jids: seq<Jid>, w: World)
      modifies this
      ensures table == Paced(old(table), jids, 0, w).statuses
      ensures calls == old(calls) + Paced(old(table), jids, 0, w).calls
    {
      var i, k := 0, 0;
      ghost var made: seq<seq<Jid>> := [];
      while i < |jids|
        invariant 0 <= i <= |jids| && (i > 0 <==> k > 0) && k >= 0
        invariant calls == old(calls) + made
        invariant Paced(old(table), jids, 0, w) == After(made, Paced(table, jids[i..], k, w))
      {
        var end := if i + BATCH > |jids| then |jids| else i + BATCH;
        var batch := jids[i..end];
        NextBatch(jids, i, end);
        if i > 0 && w.gone(k) {
          MarkPending(batch, Cancelled);
          return;
        }
        var reply := w.reply(k);
        AfterCalled(made, batch, table, jids[i..], k, w);
        made := made + [batch];
        Call(batch, jids[i..], reply);
        if reply.RateLimited? {
          return;
        }
        i, k := end, k + 1;
      }
    }
  }

  lemma UsersOfNext(batch: seq<Jid>, i: nat)
    requires i < |batch|
    ensures UsersOf(batch[..i + 1]) == UsersOf(batch[..i]) + {batch[i].user}
  {
    assert batch[..i + 1] == batch[..i] + [batch[i]];
  }

  lemma NextBatch(jids: seq<Jid>, i: nat, end: nat)
    requires i < |jids| && end == if i + BATCH > |jids| then |jids| else i + BATCH
    ensures end - i == Len(jids[i..])
    ensures jids[i..][..end - i] == jids[i..end] && jids[i..][end - i..] == jids[end..]
  {
  }

  ghost function After(made: seq<seq<Jid>>, r: Run): Run {
    r.(calls := made + r.calls)
  }

  /** One more call of the loop is one step of the specification. */
  lemma AfterCalled(made: seq<seq<Jid>>, batch: seq<Jid>, statuses: Table, jids: seq<Jid>, k: nat, w: World)
    requires jids != [] && !(k > 0 && w.gone(k)) && batch == jids[..Len(jids)]
    ensures var after := Effect(statuses, w.reply(k), batch, jids);
            After(made, Paced(statuses, jids, k, w)) ==
              if w.reply(k).RateLimited? then Run(after, made + [batch], Limited)
              else After(made + [batch], Paced(after, jids[Len(jids)..], k + 1, w))
  {
    var r := Paced(Effect(statuses, w.reply(k), batch, jids), jids[Len(jids)..], k + 1, w);
    assert made + ([batch] + r.calls) == (made + [batch]) + r.calls;
  }

  datatype CreateResult =
    | Created(participants: seq<Status>)
    | NoParticipants
    | CoolingDown
    | CreateLimited
    | CreateFailed(message: string)

  /** The results of the creation, then the paced batches. */
  method Populate(statuses: Table, first: seq<Jid>, rest: seq<Jid>, outcomes: seq<Outcome>, w: World)
    returns (table: Table, ghost calls: seq<seq<Jid>>)
    ensures table == Paced(Apply(statuses, outcomes, first), rest, 0, w).statuses
    ensures calls == Paced(Apply(statuses, outcomes, first), rest, 0, w).calls
  {
    var s := new Statuses(statuses);
    s.ApplyParticipantResults(outcomes, first);
    if rest != [] {
      s.AddParticipantsPaced(rest, w);
    }
    table, calls := s.table, s.calls;
  }

  /** cooledDown is the verdict of the creation cooldown, created the server's answer to the creation. */
  method CreateGroup(phones: seq<string>, parse: Parser, cooledDown: bool, created: Reply, w: World)
    returns (r: CreateResult, ghost calls: seq<seq<Jid>>)
    ensures r.NoParticipants? <==> forall i :: 0 <= i < |phones| ==> Trim(phones[i]) == ""
    ensures r.CoolingDown? <==> !r.NoParticipants? && !cooledDown
    ensures r.CreateLimited? <==> !r.NoParticipants? && cooledDown && created.RateLimited?
    ensures r.CreateFailed? <==> !r.NoParticipants? && cooledDown && created.Refusal?
    ensures r.CreateFailed? ==> r.message == created.message
    ensures r.NoParticipants? || r.CoolingDown? ==> calls == []
    ensures r.CreateLimited? || r.CreateFailed? ==> |calls| == 1
    ensures r.Created? ==>
              var res := Resolve(phones, parse);
              var run := CreateRun(res.statuses, res.jids, if created.Results? then created.outcomes else [], w);
              && calls == run.calls
              && r.participants == Entries(run.statuses, ListedKeys(run.statuses, phones))
              && (NoClash(phones, parse) ==> ListedKeys(run.statuses, phones) == FirstMentions(phones, parse))
  {
    calls := [];
    NobodyNamed(phones, parse);
    var resolved := ResolveParticipants(phones, parse);
    if resolved.None? {
      return NoParticipants, calls;
    }
    var (jids, statuses) := resolved.value;
    if !cooledDown {
      return CoolingDown, calls;
    }
    var first, rest := jids, [];
    if |jids| > BATCH {
      first, rest := jids[..BATCH], jids[BATCH..];
    }
    assert first == jids[..Len(jids)] && rest == jids[Len(jids)..];
    calls := [first];
    match created {
      case RateLimited =>
        r := CreateLimited;
      case Refusal(message) =>
        r := CreateFailed(message);
      case Results(outcomes) =>
        ghost var paced: seq<seq<Jid>>;
        var table;
        table, paced := Populate(statuses, first, rest, outcomes, w);
        calls := [first] + paced;
        var list := StatusList(table, phones);
        r := Created(list);
        CreationListed(phones, parse, outcomes, w);
    }
  }

  /** Adding to a group that exists: None for the error that nobody was named. */
  method AddParticipants(phones: seq<string>, parse: Parser, w: World)
    returns (r: Option<seq<Status>>, ghost calls: seq<seq<Jid>>)
    ensures r.None? <==> forall i :: 0 <= i < |phones| ==> Trim(phones[i]) == ""
    ensures r.None? ==> calls == []
    ensures r.Some? ==>
              var res := Resolve(phones, parse);
              var run := Paced(res.statuses, res.jids, 0, w);
              && calls == run.calls
              && r.value == Entries(run.statuses, ListedKeys(run.statuses, phones))
              && (NoClash(phones, parse) ==> ListedKeys(run.statuses, phones) == FirstMentions(phones, parse))
  {
    calls := [];
    NobodyNamed(phones, parse);
    var resolved := ResolveParticipants(phones, parse);
    if resolved.None? {
      return None, calls;
    }
    var (jids, statuses) := resolved.value;
    var s := new Statuses(statuses);
    s.AddParticipantsPaced(jids, w);
    calls := s.calls;
    var list := StatusList(s.table, phones);
    r := Some(list);
    AddingSettlesAll(phones, parse, w);
    ListedInAnyCase(phones, parse, Paced(statuses, jids, 0, w).statuses);
  }
}
