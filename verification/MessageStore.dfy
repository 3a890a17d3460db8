/** The message store's methods as the program has them. */
module MessageStore {
  import opened Options
  import opened Receipts

  datatype MessageStatus = MessageStatus(
    id: string, session: string, chat: string, status: string, statusAt: int, found: bool)

  /** A receipt as reported for a message. */
  datatype Entry = Entry(id: string, participant: Participant, kind: string, ts: int)

  predicate InTimeOrder(rows: seq<Entry>) {
    forall i, j :: 0 <= i < j < |rows| ==> rows[i].ts <= rows[j].ts
  }

  predicate OnePerParticipant(rows: seq<Entry>) {
    forall i, j :: 0 <= i < j < |rows| ==> !(rows[i].id == rows[j].id && rows[i].participant == rows[j].participant)
  }

  /** The row the receipt table has for a message and participant. */
  predicate IsStored(receipts: ReceiptTable, session: string, r: Entry) {
    var key := ReceiptKey(MessageKey(session, r.id), r.participant);
    key in receipts && receipts[key].kind == r.kind && receipts[key].ts == r.ts
  }

  /** What the query answers: the stored receipts of the named messages, each once, by time. */
  ghost predicate Answers(receipts: ReceiptTable, session: string, ids: seq<string>, rows: seq<Entry>) {
    && InTimeOrder(rows) && OnePerParticipant(rows)
    && forall r: Entry :: r in rows <==> r.id in ids && IsStored(receipts, session, r)
  }

  /** The rows of one message. */
  function Of(rows: seq<Entry>, id: string): seq<Entry> {
    if rows == [] then []
    else Of(rows[..|rows| - 1], id) + if rows[|rows| - 1].id == id then [rows[|rows| - 1]] else []
  }

  lemma {:induction false} OfMembers(rows: seq<Entry>, id: string)
    ensures forall r :: r in Of(rows, id) <==> r in rows && r.id == id
  {
    if rows != [] {
      var n := |rows| - 1;
      OfMembers(rows[..n], id);
      assert rows == rows[..n] + [rows[n]];
    }
  }

  lemma {:induction false} OfKeepsOrder(rows: seq<Entry>, id: string)
    requires InTimeOrder(rows) && OnePerParticipant(rows)
    ensures InTimeOrder(Of(rows, id)) && OnePerParticipant(Of(rows, id))
  {
    if rows != [] {
      var n := |rows| - 1;
      OfKeepsOrder(rows[..n], id);
      OfMembers(rows[..n], id);
      var before := Of(rows[..n], id);
      forall k | 0 <= k < |before|
        ensures before[k].ts <= rows[n].ts
        ensures !(before[k].id == rows[n].id && before[k].participant == rows[n].participant)
      {
        assert before[k] in rows[..n];
        var i :| 0 <= i < n && rows[..n][i] == before[k];
        assert rows[i] == before[k];
      }
    }
  }

  ghost predicate HasReceipt(receipts: ReceiptTable, session: string, id: string) {
    exists p :: ReceiptKey(MessageKey(session, id), p) in receipts
  }

  /** The list is exactly the stored receipts of the message, one per participant, by time. */
  ghost predicate AreReceiptsOf(receipts: ReceiptTable, session: string, id: string, list: seq<Entry>) {
    && InTimeOrder(list) && OnePerParticipant(list)
    && forall r: Entry :: r in list <==> r.id == id && IsStored(receipts, session, r)
  }

  lemma NamedWithReceipt(receipts: ReceiptTable, session: string, ids: seq<string>, rows: seq<Entry>, id: string)
    requires Answers(receipts, session, ids, rows)
    ensures Of(rows, id) != [] <==> id in ids && HasReceipt(receipts, session, id)
  {
    OfMembers(rows, id);
    if Of(rows, id) != [] {
      var r := Of(rows, id)[0];
      assert r in Of(rows, id) && IsStored(receipts, session, r);
    }
    if id in ids && HasReceipt(receipts, session, id) {
      var p :| ReceiptKey(MessageKey(session, id), p) in receipts;
      var row := receipts[ReceiptKey(MessageKey(session, id), p)];
      var r := Entry(id, p, row.kind, row.ts);
      assert r in rows;
      assert r in Of(rows, id);
    }
  }

  lemma OfIsComplete(receipts: ReceiptTable, session: string, ids: seq<string>, rows: seq<Entry>, id: string)
    requires Answers(receipts, session, ids, rows) && id in ids
    ensures AreReceiptsOf(receipts, session, id, Of(rows, id))
  {
    OfMembers(rows, id);
    OfKeepsOrder(rows, id);
  }

  /** The loop over the rows of the query. */
  method GroupById(rows: seq<Entry>) returns (out: map<string, seq<Entry>>)
    ensures forall id :: id in out <==> Of(rows, id) != []
    ensures forall id :: id in out ==> out[id] == Of(rows, id)
  {
    out := map[];
    for i := 0 to |rows|
      invariant forall id :: id in out <==> Of(rows[..i], id) != []
      invariant forall id :: id in out ==> out[id] == Of(rows[..i], id)
    {
      assert rows[..i + 1][..i] == rows[..i];
      var id := rows[i].id;
      out := out[id := (if id in out then out[id] else []) + [rows[i]]];
    }
    assert rows[..|rows|] == rows;
  }

  class MessageStore {
    var messages: Messages
    var receipts: ReceiptTable
    var archive: Archive

    constructor (archive: Archive)
      ensures View() == Store(map[], map[], archive)
    {
      messages, receipts, this.archive := map[], map[], archive;
    }

    function View(): Store
      reads this
    {
      Store(messages, receipts, archive)
    }

    method Save(key: MessageKey, row: MessageRow, ok: bool)
      modifies this`messages
      ensures View() == Apply(old(View()), Event.Save(key, row, ok))
      ensures messages == if (archive.enabled || archive.chats != {}) && ok && key !in old(messages)
        then old(messages)[key := row] else old(messages)
    {
      if !Active(archive) {
        return;
      }
      if ok && key !in messages {
        messages := messages[key := row];
      }
    }

    /** Advances the outgoing rows named by ids, if the write succeeds; never moves a row back. */
    method AdvanceStatus(session: string, ids: seq<string>, status: string, ts: int, ok: bool)
      modifies this`messages
      ensures messages.Keys == old(messages).Keys
      ensures forall k :: k in messages ==> StatusRank(messages[k].status) >= StatusRank(old(messages)[k].status)
      ensures messages ==
        if Active(archive) && ok then UpdateStatus(old(messages), session, ids, status, ts) else old(messages)
    {
      if !Active(archive) || |ids| == 0 {
        assert UpdateStatus(messages, session, [], status, ts) == messages;
        return;
      }
      var rank := StatusRank(status);
      if rank < 0 {
        assert UpdateStatus(messages, session, ids, status, ts) == messages by {
          forall k | k in messages ensures Upgrade(messages[k], status, ts) == messages[k] {
          }
        }
        return;
      }
      if ok {
        messages := UpdateStatus(messages, session, ids, status, ts);
      }
    }

    /** Upserts one receipt per message id, in order; those at the positions in failed are skipped. */
    method RecordReceipts(session: string, chat: string, p: Participant, ids: seq<string>, status: string, ts: int,
                          failed: set<nat>)
      modifies this`receipts
      ensures receipts == if p != "" && StatusRank(status) > 0
        then SaveReceipts(old(receipts), session, chat, p, ids, status, ts, failed) else old(receipts)
    {
      if p == "" || |ids| == 0 {
        return;
      }
      var rank := StatusRank(status);
      if rank <= 0 {
        return;
      }
      for i := 0 to |ids|
        invariant receipts == SaveReceipts(old(receipts), session, chat, p, ids[..i], status, ts, failed)
      {
        assert ids[..i + 1][..i] == ids[..i];
        if i in failed {
          continue;
        }
        var key := ReceiptKey(MessageKey(session, ids[i]), p);
        if key !in receipts {
          receipts := receipts[key := ReceiptRow(chat, status, ts)];
        } else if StoredRank(receipts[key].kind) < rank {
          receipts := receipts[key := receipts[key].(kind := status, ts := ts)];
        }
      }
      assert ids[..|ids|] == ids;
    }

    /** A receipt from the connection: aggregate first, then the participant's own. */
    method HandleReceipt(r: Receipt, updated: bool, failed: set<nat>)
      modifies this`messages, this`receipts
      ensures View() == Apply(old(View()), Receive(r, updated, failed))
      ensures r.kind == Delivered ==>
        Moved(old(View()), View(), r, updated, failed, "delivered", {"delivered", "read", "played"})
      ensures r.kind == Read ==> Moved(old(View()), View(), r, updated, failed, "read", {"read", "played"})
      ensures r.kind == Played ==> Moved(old(View()), View(), r, updated, failed, "played", {"played"})
      ensures r.kind in {ReadSelf, PlayedSelf, Other} ==> View() == old(View())
    {
      ReceiptsMove(View(), r, updated, failed);
      var status := ReceiptStatus(r.kind);
      if status.None? || |r.ids| == 0 {
        return;
      }
      if StatusRank(status.value) < 0 {
        return;
      }
      AdvanceStatus(r.session, r.ids, status.value, r.ts, updated);
      if Admits(archive, r.session, r.chat, r.listed) {
        RecordReceipts(r.session, r.chat, r.participant, r.ids, status.value, r.ts, failed);
      }
    }

    /** The receipts of every named message that has one: each participant once, in time order. */
    method ReceiptsFor(session: string, ids: seq<string>, rows: seq<Entry>) returns (out: map<string, seq<Entry>>)
      requires Answers(receipts, session, ids, rows)
      ensures forall id :: id in out <==> id in ids && HasReceipt(receipts, session, id)
      ensures forall id :: id in out ==> AreReceiptsOf(receipts, session, id, out[id])
    {
      out := GroupById(rows);
      forall id ensures id in out <==> id in ids && HasReceipt(receipts, session, id) {
        NamedWithReceipt(receipts, session, ids, rows, id);
      }
      forall id | id in out ensures AreReceiptsOf(receipts, session, id, out[id]) {
        NamedWithReceipt(receipts, session, ids, rows, id);
        OfIsComplete(receipts, session, ids, rows, id);
      }
    }

    /** A row answers a lookup: outgoing, named, and in the session unless none was given. */
    predicate Matches(k: MessageKey, session: string, ids: seq<string>)
      requires k in messages
      reads this
    {
      messages[k].fromMe && k.id in ids && (session == "" || k.session == session)
    }

    /** Refused while storage is off; else one answer per requested id, in request order, marked not
        found when no row answers. */
    method StatusByIds(session: string, ids: seq<string>) returns (ok: bool, out: seq<MessageStatus>)
      ensures ok <==> Active(archive)
      ensures |out| == if ok then |ids| else 0
      ensures forall i :: 0 <= i < |out| ==> out[i].id == ids[i]
      ensures forall i :: 0 <= i < |out| ==>
        (out[i].found <==> exists k :: k in messages && k.id == ids[i] && Matches(k, session, ids))
      ensures forall i :: 0 <= i < |out| && out[i].found ==>
        var k := MessageKey(out[i].session, ids[i]);
        k in messages && (session == "" || k.session == session) && messages[k].fromMe
        && out[i].chat == messages[k].chat && out[i].status == messages[k].status
        && out[i].statusAt == messages[k].statusTs
    {
      if !Active(archive) {
        return false, [];
      }
      ok := true;
      var found: map<string, MessageStatus> := map[];
      var todo := messages.Keys;
      while todo != {}
        invariant todo <= messages.Keys
        invariant forall id :: id in found <==>
          exists k :: k in messages && k !in todo && k.id == id && Matches(k, session, ids)
        invariant forall id :: id in found ==>
          var k := MessageKey(found[id].session, id);
          k in messages && Matches(k, session, ids)
          && found[id] == MessageStatus(id, k.session, messages[k].chat, messages[k].status, messages[k].statusTs, true)
        decreases |todo|
      {
        var k :| k in todo;
        if messages[k].fromMe && k.id in ids && (session == "" || k.session == session) {
          found := found[k.id := MessageStatus(
            k.id, k.session, messages[k].chat, messages[k].status, messages[k].statusTs, true)];
        }
        todo := todo - {k};
      }
      out := [];
      for i := 0 to |ids|
        invariant |out| == i
        invariant forall j :: 0 <= j < i ==>
          out[j] == if ids[j] in found then found[ids[j]] else MessageStatus(ids[j], "", "", "", 0, false)
      {
        out := out + [if ids[i] in found then found[ids[i]] else MessageStatus(ids[i], "", "", "", 0, false)];
      }
    }
  }
}
