/** Delivery receipts: the aggregate status of an outgoing message and the receipts kept per
    participant, both only ever upgraded. */
module Receipts {
  import opened Options

  type Participant = string

  datatype MessageKey = MessageKey(session: string, id: string)

  datatype MessageRow = MessageRow(chat: string, fromMe: bool, status: string, statusTs: int)

  datatype ReceiptKey = ReceiptKey(message: MessageKey, participant: Participant)

  datatype ReceiptRow = ReceiptRow(chat: string, kind: string, ts: int)

  datatype ReceiptType = Delivered | Read | Played | ReadSelf | PlayedSelf | Other

  function StatusRank(status: string): int {
    if status == "sent" then 0
    else if status == "delivered" then 1
    else if status == "read" then 2
    else if status == "played" then 3
    else -1
  }

  /** The rank the receipt table compares with; anything unknown counts as zero. */
  function StoredRank(kind: string): nat {
    if StatusRank(kind) > 0 then StatusRank(kind) else 0
  }

  function ReceiptStatus(t: ReceiptType): Option<string> {
    match t
    case Delivered => Some("delivered")
    case Read => Some("read")
    case Played => Some("played")
    case ReadSelf => Some("read-self")
    case PlayedSelf => Some("played-self")
    case Other => None
  }

  type Messages = map<MessageKey, MessageRow>
  type ReceiptTable = map<ReceiptKey, ReceiptRow>

  function Upgrade(row: MessageRow, status: string, ts: int): MessageRow {
    if StatusRank(row.status) < StatusRank(status) then row.(status := status, statusTs := ts) else row
  }

  /** The one UPDATE over all named outgoing rows of a session. */
  function UpdateStatus(messages: Messages, session: string, ids: seq<string>, status: string, ts: int): Messages {
    map k | k in messages ::
      if k.session == session && k.id in ids && messages[k].fromMe then Upgrade(messages[k], status, ts)
      else messages[k]
  }

  /** INSERT ... ON CONFLICT DO UPDATE ... WHERE the stored rank is lower. */
  function Upsert(receipts: ReceiptTable, key: ReceiptKey, chat: string, status: string, ts: int): ReceiptTable {
    if key !in receipts then receipts[key := ReceiptRow(chat, status, ts)]
    else if StoredRank(receipts[key].kind) < StatusRank(status) then
      receipts[key := receipts[key].(kind := status, ts := ts)]
    else receipts
  }

  /** The receipt table after one participant's receipt for several messages; the upserts at the
      positions in failed are logged and skipped. */
  function SaveReceipts(receipts: ReceiptTable, session: string, chat: string, p: Participant, ids: seq<string>,
                        status: string, ts: int, failed: set<nat>): ReceiptTable
  {
    if ids == [] then receipts else
      var n := |ids| - 1;
      var before := SaveReceipts(receipts, session, chat, p, ids[..n], status, ts, failed);
      if n in failed then before else Upsert(before, ReceiptKey(MessageKey(session, ids[n]), p), chat, status, ts)
  }

  /** Some upsert for this id succeeds. */
  predicate Lands(ids: seq<string>, failed: set<nat>, id: string) {
    exists i :: 0 <= i < |ids| && ids[i] == id && i !in failed
  }

  // ---- one row under a sequence of receipts ----

  datatype Stamp = Stamp(status: string, ts: int)

  function FoldRow(row: MessageRow, stamps: seq<Stamp>): MessageRow {
    if stamps == [] then row else
      Upgrade(FoldRow(row, stamps[..|stamps| - 1]), stamps[|stamps| - 1].status, stamps[|stamps| - 1].ts)
  }

  function Max(a: int, b: int): int { if a < b then b else a }

  /** The greatest rank among start and the stamps. */
  function MaxRank(start: int, stamps: seq<Stamp>): int {
    if stamps == [] then start else Max(MaxRank(start, stamps[..|stamps| - 1]), StatusRank(stamps[|stamps| - 1].status))
  }

  ghost predicate IsGreatest(r: int, start: int, stamps: seq<Stamp>) {
    && r >= start && (forall i :: 0 <= i < |stamps| ==> r >= StatusRank(stamps[i].status))
    && (r == start || exists i :: 0 <= i < |stamps| && r == StatusRank(stamps[i].status))
  }

  lemma {:induction false} MaxRankIsGreatest(start: int, stamps: seq<Stamp>)
    ensures IsGreatest(MaxRank(start, stamps), start, stamps)
  {
    if stamps != [] {
      var n := |stamps| - 1;
      MaxRankIsGreatest(start, stamps[..n]);
      assert forall i :: 0 <= i < n ==> stamps[..n][i] == stamps[i];
    }
  }

  /** After any receipts the row holds the greatest rank seen, stamped by the first receipt that reached it. */
  lemma {:induction false} FoldIsMaximum(row: MessageRow, stamps: seq<Stamp>)
    ensures var end := FoldRow(row, stamps);
      && StatusRank(end.status) == MaxRank(StatusRank(row.status), stamps)
      && end.chat == row.chat && end.fromMe == row.fromMe
      && (StatusRank(end.status) == StatusRank(row.status) ==> end == row)
      && (StatusRank(end.status) > StatusRank(row.status) ==>
           exists k :: 0 <= k < |stamps| && stamps[k] == Stamp(end.status, end.statusTs)
             && forall j :: 0 <= j < k ==> StatusRank(stamps[j].status) < StatusRank(end.status))
  {
    if stamps != [] {
      var n := |stamps| - 1;
      FoldIsMaximum(row, stamps[..n]);
      MaxRankIsGreatest(StatusRank(row.status), stamps[..n]);
      assert forall i :: 0 <= i < n ==> stamps[..n][i] == stamps[i];
      var end := FoldRow(row, stamps);
      if FoldRow(row, stamps[..n]) != end {
        assert stamps[n] == Stamp(end.status, end.statusTs);
      }
    }
  }

  /** The final rank does not depend on the order in which receipts arrive. */
  lemma OrderIndependent(row: MessageRow, stamps: seq<Stamp>, other: seq<Stamp>)
    requires multiset(stamps) == multiset(other)
    ensures StatusRank(FoldRow(row, stamps).status) == StatusRank(FoldRow(row, other).status)
  {
    FoldIsMaximum(row, stamps);
    FoldIsMaximum(row, other);
    var start := StatusRank(row.status);
    MaxRankIsGreatest(start, stamps);
    MaxRankIsGreatest(start, other);
    assert forall x :: x in stamps <==> x in multiset(stamps);
    assert forall x :: x in other <==> x in multiset(other);
    GreatestBelow(MaxRank(start, stamps), start, stamps, MaxRank(start, other), other);
    GreatestBelow(MaxRank(start, other), start, other, MaxRank(start, stamps), stamps);
  }

  lemma GreatestBelow(r: int, start: int, stamps: seq<Stamp>, r': int, other: seq<Stamp>)
    requires IsGreatest(r, start, stamps) && IsGreatest(r', start, other)
    requires forall x :: x in stamps ==> x in other
    ensures r <= r'
  {
    if r != start {
      var i :| 0 <= i < |stamps| && r == StatusRank(stamps[i].status);
      assert stamps[i] in other;
      var j :| 0 <= j < |other| && other[j] == stamps[i];
    }
  }

  // ---- the store under a sequence of events ----

  datatype Chat = Chat(session: string, chat: string)

  /** STORE_MESSAGES and the chats opted in at runtime. */
  datatype Archive = Archive(enabled: bool, chats: set<Chat>)

  datatype Store = Store(messages: Messages, receipts: ReceiptTable, archive: Archive)

  function Active(a: Archive): bool {
    a.enabled || a.chats != {}
  }

  /** The chat filter; `listed` is what the configured allow and deny lists say. */
  function Admits(a: Archive, session: string, chat: string, listed: bool): bool {
    Chat(session, chat) in a.chats || (a.enabled && listed)
  }

  /** Where a failed write is logged and skipped, the event says which writes fail. */
  datatype Event =
    | Save(key: MessageKey, row: MessageRow, ok: bool)
    | Receive(receipt: Receipt, updated: bool, failed: set<nat>)
    | SetChat(session: string, chat: string, on: bool)

  /** A receipt event; `listed` is what the configured allow and deny lists say of its chat. */
  datatype Receipt = Receipt(
    session: string, chat: string, participant: Participant, kind: ReceiptType, ids: seq<string>, ts: int, listed: bool)

  /** The receipt changes outgoing check marks at all. */
  predicate Counts(r: Receipt)
  {
    r.ids != [] && ReceiptStatus(r.kind).Some? && StatusRank(ReceiptStatus(r.kind).value) >= 0
  }

  /** The receipt counts and names the message. */
  predicate Names(r: Receipt, key: MessageKey) {
    Counts(r) && r.session == key.session && key.id in r.ids
  }

  predicate Kept(a: Archive, r: Receipt)
    requires Counts(r)
  {
    Admits(a, r.session, r.chat, r.listed) && r.participant != "" && StatusRank(ReceiptStatus(r.kind).value) > 0
  }

  function Apply(s: Store, e: Event): Store {
    match e
    case Save(key, row, ok) =>
      if !Active(s.archive) || !ok || key in s.messages then s else s.(messages := s.messages[key := row])
    case Receive(r, updated, failed) =>
      if !Counts(r) then s else
        var status := ReceiptStatus(r.kind).value;
        s.(messages := if Active(s.archive) && updated then UpdateStatus(s.messages, r.session, r.ids, status, r.ts)
                       else s.messages,
           receipts := if Kept(s.archive, r)
                       then SaveReceipts(s.receipts, r.session, r.chat, r.participant, r.ids, status, r.ts, failed)
                       else s.receipts)
    case SetChat(session, chat, on) =>
      var key := Chat(session, chat);
      s.(archive := s.archive.(chats := if on then s.archive.chats + {key} else s.archive.chats - {key}))
  }

  function Run(s: Store, events: seq<Event>): Store {
    if events == [] then s else Apply(Run(s, events[..|events| - 1]), events[|events| - 1])
  }

  /** What one receipt leaves of a participant's row: a new row, an upgrade with its time, or the old row. */
  function Merged(receipts: ReceiptTable, key: ReceiptKey, chat: string, stamp: Stamp): ReceiptRow {
    if key !in receipts then ReceiptRow(chat, stamp.status, stamp.ts)
    else if StoredRank(receipts[key].kind) < StatusRank(stamp.status) then
      ReceiptRow(receipts[key].chat, stamp.status, stamp.ts)
    else receipts[key]
  }

  /** What one upsert pass leaves at a key: one merge when it names the message and some write lands,
      however often, and nothing otherwise. */
  lemma {:induction false} SaveReceiptsAt(receipts: ReceiptTable, session: string, chat: string, p: Participant,
                                          ids: seq<string>, status: string, ts: int, failed: set<nat>, key: ReceiptKey)
    requires StatusRank(status) > 0
    ensures var after := SaveReceipts(receipts, session, chat, p, ids, status, ts, failed);
      if key.participant == p && key.message.session == session && Lands(ids, failed, key.message.id)
      then key in after && after[key] == Merged(receipts, key, chat, Stamp(status, ts))
      else (key in after <==> key in receipts) && (key in receipts ==> after[key] == receipts[key])
  {
    if ids != [] {
      var n := |ids| - 1;
      SaveReceiptsAt(receipts, session, chat, p, ids[..n], status, ts, failed, key);
      LandsNext(ids, failed, key.message.id);
    }
  }

  lemma LandsNext(ids: seq<string>, failed: set<nat>, id: string)
    requires ids != []
    ensures var n := |ids| - 1;
      Lands(ids, failed, id) <==> Lands(ids[..n], failed, id) || (ids[n] == id && n !in failed)
  {
    var n := |ids| - 1;
    if Lands(ids[..n], failed, id) {
      var i :| 0 <= i < n && ids[..n][i] == id && i !in failed;
      assert ids[i] == id;
    }
    if Lands(ids, failed, id) && !(ids[n] == id && n !in failed) {
      var i :| 0 <= i < |ids| && ids[i] == id && i !in failed;
      assert ids[..n][i] == id;
    }
  }

  /** The event's receipt is kept for this participant and message. */
  predicate KeptFor(s: Store, e: Event, key: ReceiptKey) {
    && e.Receive? && Counts(e.receipt) && Kept(s.archive, e.receipt)
    && key.participant == e.receipt.participant && key.message.session == e.receipt.session
    && Lands(e.receipt.ids, e.failed, key.message.id)
  }

  function StampOf(r: Receipt): Stamp
    requires Counts(r)
  {
    Stamp(ReceiptStatus(r.kind).value, r.ts)
  }

  /** One receipt event at one participant's receipt. */
  lemma ReceiveAt(s: Store, r: Receipt, updated: bool, failed: set<nat>, key: ReceiptKey)
    requires Counts(r)
    ensures var after := Apply(s, Receive(r, updated, failed)).receipts;
      if KeptFor(s, Receive(r, updated, failed), key)
      then key in after && after[key] == Merged(s.receipts, key, r.chat, StampOf(r))
      else (key in after <==> key in s.receipts) && (key in s.receipts ==> after[key] == s.receipts[key])
  {
    if Kept(s.archive, r) {
      SaveReceiptsAt(s.receipts, r.session, r.chat, r.participant, r.ids,
                     ReceiptStatus(r.kind).value, r.ts, failed, key);
    }
  }

  // ---- the statuses a receipt leaves ----

  /** The receipt's aggregate write reaches the row of this key. */
  predicate Reaches(s: Store, r: Receipt, updated: bool, key: MessageKey) {
    updated && (s.archive.enabled || s.archive.chats != {}) && key.session == r.session && key.id in r.ids
  }

  /** The receipt's own upsert reaches this participant's receipt for this message. */
  predicate Lodges(s: Store, r: Receipt, failed: set<nat>, key: ReceiptKey) {
    && r.participant != "" && key.participant == r.participant && key.message.session == r.session
    && (Chat(r.session, r.chat) in s.archive.chats || (s.archive.enabled && r.listed))
    && Lands(r.ids, failed, key.message.id)
  }

  /** A receipt with this mark gives it, and its time, to the outgoing rows and the participant's receipts
      that it reaches, unless they are there already or above; nothing else changes. */
  ghost predicate Moved(s: Store, t: Store, r: Receipt, updated: bool, failed: set<nat>,
                        mark: string, above: set<string>)
  {
    && t.archive == s.archive && t.messages.Keys == s.messages.Keys
    && (forall k :: k in s.messages ==>
         t.messages[k] ==
           if Reaches(s, r, updated, k) && s.messages[k].fromMe && s.messages[k].status !in above
           then MessageRow(s.messages[k].chat, true, mark, r.ts) else s.messages[k])
    && (forall k :: k in t.receipts <==> k in s.receipts || Lodges(s, r, failed, k))
    && (forall k :: k in t.receipts ==>
         t.receipts[k] ==
           if k !in s.receipts then ReceiptRow(r.chat, mark, r.ts)
           else if Lodges(s, r, failed, k) && s.receipts[k].kind !in above
           then ReceiptRow(s.receipts[k].chat, mark, r.ts)
           else s.receipts[k])
  }

  lemma Ranked(status: string)
    ensures StatusRank(status) < StatusRank("delivered") <==> status !in {"delivered", "read", "played"}
    ensures StatusRank(status) < StatusRank("read") <==> status !in {"read", "played"}
    ensures StatusRank(status) < StatusRank("played") <==> status !in {"played"}
    ensures StatusRank("delivered") > 0 && StatusRank("read") > 0 && StatusRank("played") > 0
  {
  }

  lemma MessagesMoved(s: Store, r: Receipt, updated: bool, failed: set<nat>, mark: string, above: set<string>)
    requires Counts(r) && ReceiptStatus(r.kind).value == mark
    requires forall status :: StatusRank(status) < StatusRank(mark) <==> status !in above
    ensures var t := Apply(s, Receive(r, updated, failed));
      && t.archive == s.archive && t.messages.Keys == s.messages.Keys
      && forall k :: k in s.messages ==>
           t.messages[k] ==
             if Reaches(s, r, updated, k) && s.messages[k].fromMe && s.messages[k].status !in above
             then MessageRow(s.messages[k].chat, true, mark, r.ts) else s.messages[k]
  {
  }

  lemma LabelMoves(s: Store, r: Receipt, updated: bool, failed: set<nat>, mark: string, above: set<string>)
    requires Counts(r) && ReceiptStatus(r.kind).value == mark && StatusRank(mark) > 0
    requires forall status :: StatusRank(status) < StatusRank(mark) <==> status !in above
    ensures Moved(s, Apply(s, Receive(r, updated, failed)), r, updated, failed, mark, above)
  {
    MessagesMoved(s, r, updated, failed, mark, above);
    var t := Apply(s, Receive(r, updated, failed));
    forall k: ReceiptKey
      ensures k in t.receipts <==> k in s.receipts || Lodges(s, r, failed, k)
      ensures k in t.receipts ==>
        t.receipts[k] ==
          if k !in s.receipts then ReceiptRow(r.chat, mark, r.ts)
          else if Lodges(s, r, failed, k) && s.receipts[k].kind !in above
          then ReceiptRow(s.receipts[k].chat, mark, r.ts)
          else s.receipts[k]
    {
      ReceiveAt(s, r, updated, failed, k);
    }
  }

  lemma NobodyNamed(s: Store, r: Receipt, updated: bool, failed: set<nat>, mark: string, above: set<string>)
    requires r.ids == []
    ensures Moved(s, s, r, updated, failed, mark, above)
  {
  }

  /** Which status a receipt leaves: "delivered", "read" or "played" where the row or the participant's
      receipt was behind, in the order sent, delivered, read, played; receipts of other types, such as
      those of our own devices, change nothing. */
  lemma ReceiptsMove(s: Store, r: Receipt, updated: bool, failed: set<nat>)
    ensures var t := Apply(s, Receive(r, updated, failed));
      && (r.kind == Delivered ==> Moved(s, t, r, updated, failed, "delivered", {"delivered", "read", "played"}))
      && (r.kind == Read ==> Moved(s, t, r, updated, failed, "read", {"read", "played"}))
      && (r.kind == Played ==> Moved(s, t, r, updated, failed, "played", {"played"}))
      && (r.kind in {ReadSelf, PlayedSelf, Other} ==> t == s)
  {
    forall status: string
      ensures StatusRank(status) < StatusRank("delivered") <==> status !in {"delivered", "read", "played"}
      ensures StatusRank(status) < StatusRank("read") <==> status !in {"read", "played"}
      ensures StatusRank(status) < StatusRank("played") <==> status !in {"played"}
    {
      Ranked(status);
    }
    match r.kind {
      case Delivered => MovesOrNobody(s, r, updated, failed, "delivered", {"delivered", "read", "played"});
      case Read => MovesOrNobody(s, r, updated, failed, "read", {"read", "played"});
      case Played => MovesOrNobody(s, r, updated, failed, "played", {"played"});
      case _ =>
    }
  }

  lemma MovesOrNobody(s: Store, r: Receipt, updated: bool, failed: set<nat>, mark: string, above: set<string>)
    requires ReceiptStatus(r.kind) == Some(mark) && StatusRank(mark) > 0
    requires forall status :: StatusRank(status) < StatusRank(mark) <==> status !in above
    ensures Moved(s, Apply(s, Receive(r, updated, failed)), r, updated, failed, mark, above)
  {
    if r.ids == [] {
      NobodyNamed(s, r, updated, failed, mark, above);
    } else {
      LabelMoves(s, r, updated, failed, mark, above);
    }
  }

  /** A chat that was opted in is stored whatever the lists say, one that was opted out only when storage
      is on and they admit it; other chats are as before. */
  lemma ChatSwitch(s: Store, session: string, chat: string, on: bool, other: Chat, listed: bool)
    ensures var t := Apply(s, SetChat(session, chat, on));
      && t.messages == s.messages && t.receipts == s.receipts && t.archive.enabled == s.archive.enabled
      && Admits(t.archive, other.session, other.chat, listed) ==
           if other == Chat(session, chat) then on || (s.archive.enabled && listed)
           else Admits(s.archive, other.session, other.chat, listed)
  {
  }

  /** Every participant's stored rank is at most the aggregate's. */
  ghost predicate Dominates(s: Store, key: MessageKey) {
    key in s.messages &&
    forall p :: ReceiptKey(key, p) in s.receipts ==>
      StoredRank(s.receipts[ReceiptKey(key, p)].kind) <= StatusRank(s.messages[key].status)
  }

  /** The aggregate is just sent, or some participant's stored rank equals it. */
  ghost predicate Attained(s: Store, key: MessageKey) {
    key in s.messages &&
    (StatusRank(s.messages[key].status) == 0 ||
     exists p :: ReceiptKey(key, p) in s.receipts
       && StoredRank(s.receipts[ReceiptKey(key, p)].kind) == StatusRank(s.messages[key].status))
  }

  ghost predicate Outgoing(s: Store, key: MessageKey) {
    key in s.messages && s.messages[key].fromMe && StatusRank(s.messages[key].status) >= 0
  }

  /** A receipt for this message whose aggregate write fails. */
  ghost predicate Misses(e: Event, key: MessageKey) {
    e.Receive? && Names(e.receipt, key) && !e.updated
  }

  /** A receipt for this message that is not kept per participant. */
  ghost predicate Skips(s: Store, e: Event, key: MessageKey) {
    e.Receive? && Names(e.receipt, key) && !(Kept(s.archive, e.receipt) && Lands(e.receipt.ids, e.failed, key.id))
  }

  lemma DominatesKept(s: Store, e: Event, key: MessageKey)
    requires Outgoing(s, key) && Dominates(s, key) && !Misses(e, key)
    ensures Outgoing(Apply(s, e), key) && Dominates(Apply(s, e), key)
  {
    if e.Receive? && Counts(e.receipt) {
      forall p | ReceiptKey(key, p) in Apply(s, e).receipts
        ensures StoredRank(Apply(s, e).receipts[ReceiptKey(key, p)].kind) <=
          StatusRank(Apply(s, e).messages[key].status)
      {
        ReceiveAt(s, e.receipt, e.updated, e.failed, ReceiptKey(key, p));
        assert Lands(e.receipt.ids, e.failed, key.id) ==> key.id in e.receipt.ids;
      }
    }
  }

  lemma AttainedKept(s: Store, e: Event, key: MessageKey)
    requires Outgoing(s, key) && Dominates(s, key) && Attained(s, key) && !Misses(e, key) && !Skips(s, e, key)
    ensures Attained(Apply(s, e), key)
  {
    if e.Receive? && Counts(e.receipt) {
      var t := Apply(s, e);
      var before := StatusRank(s.messages[key].status);
      DominatesKept(s, e, key);
      if StatusRank(t.messages[key].status) != before {
        ReceiveAt(s, e.receipt, e.updated, e.failed, ReceiptKey(key, e.receipt.participant));
        assert ReceiptKey(key, e.receipt.participant) in t.receipts;
      } else if before != 0 {
        var p :| ReceiptKey(key, p) in s.receipts && StoredRank(s.receipts[ReceiptKey(key, p)].kind) == before;
        ReceiveAt(s, e.receipt, e.updated, e.failed, ReceiptKey(key, p));
        assert ReceiptKey(key, p) in t.receipts;
      }
    }
  }

  ghost predicate NoneMissed(events: seq<Event>, key: MessageKey) {
    forall i :: 0 <= i < |events| ==> !Misses(events[i], key)
  }

  ghost predicate NoneSkipped(s: Store, events: seq<Event>, key: MessageKey) {
    events == [] ||
    (var n := |events| - 1; NoneSkipped(s, events[..n], key) && !Skips(Run(s, events[..n]), events[n], key))
  }

  /** An outgoing row saved before its first receipt: while no aggregate write for it fails, the
      aggregate is at least every participant's rank through any events, and when no receipt for it
      was skipped it equals the greatest of them. */
  lemma {:induction false} AggregateMatchesParticipants(s: Store, events: seq<Event>, key: MessageKey)
    requires key in s.messages && s.messages[key].fromMe && s.messages[key].status == "sent"
    requires forall p :: ReceiptKey(key, p) !in s.receipts
    requires NoneMissed(events, key)
    ensures Outgoing(Run(s, events), key) && Dominates(Run(s, events), key)
    ensures NoneSkipped(s, events, key) ==> Attained(Run(s, events), key)
  {
    if events != [] {
      var n := |events| - 1;
      AggregateMatchesParticipants(s, events[..n], key);
      DominatesKept(Run(s, events[..n]), events[n], key);
      if NoneSkipped(s, events, key) {
        AttainedKept(Run(s, events[..n]), events[n], key);
      }
    }
  }

  /** Receipts below "delivered" are never kept. */
  ghost predicate Positive(receipts: ReceiptTable) {
    forall k :: k in receipts ==> StoredRank(receipts[k].kind) > 0
  }

  lemma {:induction false} RunKeepsPositive(s: Store, events: seq<Event>)
    requires Positive(s.receipts)
    ensures Positive(Run(s, events).receipts)
  {
    if events != [] {
      var n := |events| - 1; var e := events[n];
      RunKeepsPositive(s, events[..n]);
      if e.Receive? && Counts(e.receipt) {
        forall k | k in Run(s, events).receipts ensures StoredRank(Run(s, events).receipts[k].kind) > 0 {
          ReceiveAt(Run(s, events[..n]), e.receipt, e.updated, e.failed, k);
        }
      }
    }
  }

  /** A row saved as sent, at any moment in the life of a store, starts out dominating its participants
      exactly when no receipt for it was kept before. */
  lemma SavedLateExactly(archive: Archive, events: seq<Event>, key: MessageKey, row: MessageRow)
    requires var s := Run(Store(map[], map[], archive), events); Active(s.archive) && key !in s.messages
    requires row.fromMe && row.status == "sent"
    ensures var s := Run(Store(map[], map[], archive), events);
      Dominates(Apply(s, Save(key, row, true)), key) <==> forall p :: ReceiptKey(key, p) !in s.receipts
  {
    var s := Run(Store(map[], map[], archive), events);
    var t := Apply(s, Save(key, row, true));
    RunKeepsPositive(Store(map[], map[], archive), events);
    assert t.receipts == s.receipts && t.messages[key] == row;
    if exists p :: ReceiptKey(key, p) in s.receipts {
      var p :| ReceiptKey(key, p) in s.receipts;
      assert StoredRank(t.receipts[ReceiptKey(key, p)].kind) > StatusRank(t.messages[key].status);
    }
  }

  /** The event stamps the message: it counts, names it, storage is active and the write succeeds. */
  predicate Stamps(s: Store, e: Event, key: MessageKey) {
    e.Receive? && Names(e.receipt, key) && Active(s.archive) && e.updated
  }

  /** The stamps that the events put on a message. */
  function StampsFor(s: Store, events: seq<Event>, key: MessageKey): seq<Stamp> {
    if events == [] then [] else
      var n := |events| - 1; var e := events[n];
      StampsFor(s, events[..n], key) +
        if Stamps(Run(s, events[..n]), e, key) then [StampOf(e.receipt)] else []
  }

  /** In the whole store an outgoing row is the fold of its own stamps, whatever else happens. */
  lemma {:induction false} RowIsFold(s: Store, events: seq<Event>, key: MessageKey)
    requires key in s.messages && s.messages[key].fromMe
    ensures key in Run(s, events).messages
    ensures Run(s, events).messages[key] == FoldRow(s.messages[key], StampsFor(s, events, key))
  {
    if events != [] {
      var n := |events| - 1; var e := events[n];
      RowIsFold(s, events[..n], key);
      FoldIsMaximum(s.messages[key], StampsFor(s, events[..n], key));
      var stamps := StampsFor(s, events[..n], key);
      if Stamps(Run(s, events[..n]), e, key) {
        var stamp := StampOf(e.receipt);
        assert (stamps + [stamp])[..|stamps|] == stamps;
      } else {
        assert stamps + [] == stamps;
      }
    }
  }

  /** The receipts that the events keep for one participant and message, in order of arrival. */
  function KeptStamps(s: Store, events: seq<Event>, key: ReceiptKey): (stamps: seq<Stamp>)
    ensures forall i :: 0 <= i < |stamps| ==> StatusRank(stamps[i].status) > 0
  {
    if events == [] then [] else
      var n := |events| - 1; var e := events[n];
      KeptStamps(s, events[..n], key) + if KeptFor(Run(s, events[..n]), e, key) then [StampOf(e.receipt)] else []
  }

  /** A participant's receipt, or its absence, as a row to be stamped. */
  function AsRow(receipts: ReceiptTable, key: ReceiptKey): MessageRow {
    if key in receipts then MessageRow(receipts[key].chat, true, receipts[key].kind, receipts[key].ts)
    else MessageRow("", true, "sent", 0)
  }

  /** One event at one participant's receipt: its status and time are upgraded when it is kept. */
  lemma EventUpgrades(s: Store, e: Event, key: ReceiptKey, row: MessageRow)
    requires row.status == AsRow(s.receipts, key).status && row.statusTs == AsRow(s.receipts, key).statusTs
    ensures var after := Apply(s, e).receipts;
      var up := if KeptFor(s, e, key) then Upgrade(row, StampOf(e.receipt).status, e.receipt.ts) else row;
      && (key in after <==> key in s.receipts || KeptFor(s, e, key))
      && AsRow(after, key).status == up.status && AsRow(after, key).statusTs == up.statusTs
      && (key in s.receipts ==> after[key].chat == s.receipts[key].chat)
  {
    if e.Receive? && Counts(e.receipt) {
      ReceiveAt(s, e.receipt, e.updated, e.failed, key);
    }
  }

  /** The same fold governs each participant's receipt: in the whole store, kind and time are those of
      the fold of the receipts kept for it, and there is a row as soon as one was kept. */
  lemma {:induction false} ReceiptIsFold(s: Store, events: seq<Event>, key: ReceiptKey)
    ensures var after, stamps := Run(s, events).receipts, KeptStamps(s, events, key);
      && (key in after <==> key in s.receipts || stamps != [])
      && AsRow(after, key).status == FoldRow(AsRow(s.receipts, key), stamps).status
      && AsRow(after, key).statusTs == FoldRow(AsRow(s.receipts, key), stamps).statusTs
      && (key in s.receipts ==> after[key].chat == s.receipts[key].chat)
  {
    if events != [] {
      var n := |events| - 1; var e := events[n];
      ReceiptIsFold(s, events[..n], key);
      var before, stamps := Run(s, events[..n]), KeptStamps(s, events[..n], key);
      EventUpgrades(before, e, key, FoldRow(AsRow(s.receipts, key), stamps));
      if KeptFor(before, e, key) {
        assert (stamps + [StampOf(e.receipt)])[..|stamps|] == stamps;
      } else {
        assert stamps + [] == stamps;
      }
    }
  }

  /** So over any events a participant's receipt has the greatest rank kept for it, stamped by the first
      kept receipt that reached it. */
  lemma ReceiptIsMaximum(s: Store, events: seq<Event>, key: ReceiptKey)
    requires key in Run(s, events).receipts
    ensures var end, stamps := Run(s, events).receipts[key], KeptStamps(s, events, key);
      var start := if key in s.receipts then StoredRank(s.receipts[key].kind) else 0;
      && StoredRank(end.kind) == MaxRank(start, stamps)
      && (key in s.receipts && StoredRank(end.kind) == start ==> end == s.receipts[key])
      && (key !in s.receipts || StoredRank(end.kind) > start ==>
           exists k :: 0 <= k < |stamps| && stamps[k] == Stamp(end.kind, end.ts)
             && forall j :: 0 <= j < k ==> StatusRank(stamps[j].status) < StatusRank(end.kind))
  {
    var row, stamps := AsRow(s.receipts, key), KeptStamps(s, events, key);
    ReceiptIsFold(s, events, key);
    FoldIsMaximum(row, stamps);
    MaxRankIsGreatest(StatusRank(row.status), stamps);
    var start := if key in s.receipts then StoredRank(s.receipts[key].kind) else 0;
    MaxRankIsGreatest(start, stamps);
    GreatestFromZero(MaxRank(StatusRank(row.status), stamps), StatusRank(row.status), stamps, MaxRank(start, stamps));
  }

  /** An unknown kind counts as zero, which makes no difference to positive ranks. */
  lemma GreatestFromZero(r: int, start: int, stamps: seq<Stamp>, r': int)
    requires IsGreatest(r, start, stamps) && IsGreatest(r', Max(start, 0), stamps)
    requires forall i :: 0 <= i < |stamps| ==> StatusRank(stamps[i].status) > 0
    ensures r' == Max(r, 0)
    ensures stamps != [] ==> r == r'
  {
    if stamps != [] {
      assert r >= StatusRank(stamps[0].status) > 0;
    }
  }

  /** Those who reached at least rank r for a message never leave: a read count never falls. */
  lemma {:induction false} ReadersStay(s: Store, events: seq<Event>, key: ReceiptKey, r: int)
    requires key in s.receipts && StoredRank(s.receipts[key].kind) >= r
    ensures key in Run(s, events).receipts && StoredRank(Run(s, events).receipts[key].kind) >= r
  {
    if events != [] {
      var n := |events| - 1;
      ReadersStay(s, events[..n], key, r);
      var e := events[n];
      if e.Receive? && Counts(e.receipt) {
        ReceiveAt(Run(s, events[..n]), e.receipt, e.updated, e.failed, key);
      }
    }
  }

  /** The participants' receipts for a message that reached rank r. */
  function Reached(receipts: ReceiptTable, message: MessageKey, r: int): set<ReceiptKey> {
    set k | k in receipts && k.message == message && StoredRank(receipts[k].kind) >= r
  }

  /** How many participants were delivered to, have read or have played a message never falls. */
  lemma CountNeverFalls(s: Store, events: seq<Event>, message: MessageKey, r: int)
    ensures Reached(s.receipts, message, r) <= Reached(Run(s, events).receipts, message, r)
    ensures |Reached(s.receipts, message, r)| <= |Reached(Run(s, events).receipts, message, r)|
  {
    var before, after := Reached(s.receipts, message, r), Reached(Run(s, events).receipts, message, r);
    forall k | k in before ensures k in after {
      ReadersStay(s, events, k, r);
    }
    SubsetCount(before, after);
  }

  lemma SubsetCount<T>(a: set<T>, b: set<T>)
    requires a <= b
    ensures |a| <= |b|
  {
    assert b == a + (b - a);
  }

  lemma {:induction false} RunConcat(s: Store, first: seq<Event>, more: seq<Event>)
    ensures Run(s, first + more) == Run(Run(s, first), more)
  {
    if more == [] {
      assert first + more == first;
    } else {
      var n := |more| - 1;
      RunConcat(s, first, more[..n]);
      var all := first + more;
      assert all[..|all| - 1] == first + more[..n] && all[|all| - 1] == more[n];
    }
  }

  /** Nothing removes a message. */
  lemma {:induction false} MessagesStay(s: Store, events: seq<Event>, key: MessageKey)
    requires key in s.messages
    ensures key in Run(s, events).messages
  {
    if events != [] {
      MessagesStay(s, events[..|events| - 1], key);
    }
  }

  /** Saving a message a second time, however much later and whatever its content, is unobservable: the
      store goes on as if it had not happened, with the receipts that arrived in between. */
  lemma SecondSaveUnobservable(s: Store, key: MessageKey, row: MessageRow, first: bool, again: MessageRow, ok: bool,
                               between: seq<Event>, after: seq<Event>)
    requires Active(s.archive) && (first || key in s.messages)
    ensures var saved := [Save(key, row, first)];
      Run(s, saved + between + [Save(key, again, ok)] + after) == Run(s, saved + between + after)
  {
    var saved, second := [Save(key, row, first)], [Save(key, again, ok)];
    var t := Apply(s, saved[0]);
    assert saved[..0] == [] && second[..0] == [];
    RunConcat(s, saved, between);
    MessagesStay(t, between, key);
    RunConcat(s, saved + between, second);
    RunConcat(s, saved + between + second, after);
    RunConcat(s, saved + between, after);
  }
}
