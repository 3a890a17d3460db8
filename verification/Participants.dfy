/** Resolving phone numbers to group participants, and listing their statuses in input order. */
module Participants {
  import opened Options
  import opened Phone
  import opened Text

  datatype State = Pending | Added | Invited | Exists | Failed

  datatype Reason = NoReason | BadPhone | Cancelled | OverLimit | Refused(message: string) | ErrorCode(code: int)

  datatype Status = Status(phone: string, jid: Option<Jid>, state: State, code: int, reason: Reason, invite: string)

  type Table = map<string, Status>

  type Parser = string -> JidResult

  /** The table key of a mention that does not resolve. */
  function RawKey(p: string): string {
    "raw:" + p
  }

  predicate Resolves(p: string, parse: Parser) {
    parse(p).Parsed? && parse(p).jid.server == USER_SERVER
  }

  function KeyOf(p: string, parse: Parser): string {
    if Resolves(p, parse) then parse(p).jid.user else RawKey(p)
  }

  datatype Resolution = Resolution(jids: seq<Jid>, statuses: Table, seen: set<string>)

  function Mention(r: Resolution, phone: string, parse: Parser): Resolution {
    var p := Trim(phone);
    if p == "" then r
    else if !Resolves(p, parse) then
      r.(statuses := r.statuses[RawKey(p) := Status(p, None, Failed, 0, BadPhone, "")])
    else
      var jid := parse(p).jid;
      if jid.user in r.seen then r
      else
        var entry := Status(p, Some(jid), Pending, 0, NoReason, "");
        Resolution(r.jids + [jid], r.statuses[jid.user := entry], r.seen + {jid.user})
  }

  function Resolve(phones: seq<string>, parse: Parser): Resolution {
    if phones == [] then Resolution([], map[], {})
    else Mention(Resolve(phones[..|phones| - 1], parse), phones[|phones| - 1], parse)
  }

  /** Returns None for the error "participants is required". */
  method ResolveParticipants(phones: seq<string>, parse: Parser) returns (r: Option<(seq<Jid>, Table)>)
    ensures var spec := Resolve(phones, parse);
            r == if spec.statuses == map[] && spec.jids == [] then None else Some((spec.jids, spec.statuses))
  {
    var statuses: Table := map[];
    var jids: seq<Jid> := [];
    var seen: set<string> := {};
    for i := 0 to |phones|
      invariant Resolution(jids, statuses, seen) == Resolve(phones[..i], parse)
    {
      assert phones[..i + 1][..i] == phones[..i];
      var p := Trim(phones[i]);
      if p == "" {
        continue;
      }
      var parsed := parse(p);
      if parsed.Invalid? || parsed.jid.server != USER_SERVER {
        statuses := statuses["raw:" + p := Status(p, None, Failed, 0, BadPhone, "")];
        continue;
      }
      var jid := parsed.jid;
      if jid.user in seen {
        continue;
      }
      seen := seen + {jid.user};
      statuses := statuses[jid.user := Status(p, Some(jid), Pending, 0, NoReason, "")];
      jids := jids + [jid];
    }
    assert phones[..|phones|] == phones;
    if |jids| == 0 && |statuses| == 0 {
      return None;
    }
    r := Some((jids, statuses));
  }

  /** The entry made for mention p: pending with its account, or failed when it names none. */
  predicate EntryFor(p: string, key: string, entry: Status, parse: Parser) {
    if parse(p).Parsed? && parse(p).jid.server == "s.whatsapp.net" then
      key == parse(p).jid.user && entry == Status(p, Some(parse(p).jid), Pending, 0, NoReason, "")
    else
      key == "raw:" + p && entry == Status(p, None, Failed, 0, BadPhone, "")
  }

  ghost predicate Mentions(phones: seq<string>, key: string, entry: Status, parse: Parser) {
    exists i :: 0 <= i < |phones| && Trim(phones[i]) != "" && EntryFor(Trim(phones[i]), key, entry, parse)
  }

  lemma MentionStep(r: Resolution, phone: string, parse: Parser)
    ensures var t := Mention(r, phone, parse); var p := Trim(phone);
      && (forall k :: k in t.statuses ==>
           (k in r.statuses && t.statuses[k] == r.statuses[k]) || (p != "" && EntryFor(p, k, t.statuses[k], parse)))
      && (forall k :: k in r.statuses ==> k in t.statuses)
  {
  }

  /** Every entry of the resolution is that of a mention. */
  lemma {:induction false} ResolvedEntries(phones: seq<string>, parse: Parser, k: string)
    requires k in Resolve(phones, parse).statuses
    ensures Mentions(phones, k, Resolve(phones, parse).statuses[k], parse)
  {
    var n := |phones| - 1;
    var before, entry := Resolve(phones[..n], parse), Resolve(phones, parse).statuses[k];
    MentionStep(before, phones[n], parse);
    if k in before.statuses && entry == before.statuses[k] {
      ResolvedEntries(phones[..n], parse, k);
      var i :| 0 <= i < n && Trim(phones[..n][i]) != "" && EntryFor(Trim(phones[..n][i]), k, entry, parse);
      assert phones[..n][i] == phones[i];
    }
  }

  /** Every participant to add has an entry, and an account of the right server. */
  predicate AccountsPresent(r: Resolution) {
    && (forall u :: u in r.seen ==> u in r.statuses)
    && (forall j :: j in r.jids ==> j.user in r.statuses && j.server == "s.whatsapp.net")
  }

  lemma MentionPresent(r: Resolution, phone: string, parse: Parser)
    requires AccountsPresent(r)
    ensures AccountsPresent(Mention(r, phone, parse))
  {
  }

  lemma {:induction false} ResolvedAccounts(phones: seq<string>, parse: Parser)
    ensures AccountsPresent(Resolve(phones, parse))
  {
    if phones != [] {
      ResolvedAccounts(phones[..|phones| - 1], parse);
      MentionPresent(Resolve(phones[..|phones| - 1], parse), phones[|phones| - 1], parse);
    }
  }

  /** Every mention has its entry. */
  lemma {:induction false} MentionsResolved(phones: seq<string>, parse: Parser, i: nat)
    requires i < |phones| && Trim(phones[i]) != ""
    ensures KeyOf(Trim(phones[i]), parse) in Resolve(phones, parse).statuses
  {
    var n := |phones| - 1;
    MentionStep(Resolve(phones[..n], parse), phones[n], parse);
    if i < n {
      MentionsResolved(phones[..n], parse, i);
    } else {
      ResolvedAccounts(phones[..n], parse);
    }
  }

  lemma {:induction false} BlankMentions(phones: seq<string>, parse: Parser)
    requires forall i :: 0 <= i < |phones| ==> Trim(phones[i]) == ""
    ensures Resolve(phones, parse) == Resolution([], map[], {})
  {
    if phones != [] {
      BlankMentions(phones[..|phones| - 1], parse);
    }
  }

  /** Nobody is named exactly when every mention is blank. */
  lemma NobodyNamed(phones: seq<string>, parse: Parser)
    ensures Resolve(phones, parse).statuses == map[] && Resolve(phones, parse).jids == [] <==>
      forall i :: 0 <= i < |phones| ==> Trim(phones[i]) == ""
  {
    if forall i :: 0 <= i < |phones| ==> Trim(phones[i]) == "" {
      BlankMentions(phones, parse);
    } else {
      var i :| 0 <= i < |phones| && Trim(phones[i]) != "";
      MentionsResolved(phones, parse, i);
    }
  }

  /** Reference order: every participant once, at its first mention. */
  function FirstMentions(phones: seq<string>, parse: Parser): seq<string> {
    if phones == [] then []
    else
      var before := FirstMentions(phones[..|phones| - 1], parse);
      var p := Trim(phones[|phones| - 1]);
      if p == "" || KeyOf(p, parse) in before then before else before + [KeyOf(p, parse)]
  }

  /** A nonempty mention, as the loops see it. */
  predicate Mentioned(phones: seq<string>, p: string) {
    p != "" && exists i :: 0 <= i < |phones| && Trim(phones[i]) == p
  }

  /** Mention q resolves to a user part that is the key mention p gets when it does not resolve. */
  predicate Clash(p: string, q: string, parse: Parser) {
    p != "" && q != "" && Resolves(q, parse) && parse(q).jid.user == RawKey(p)
  }

  predicate NoClash(phones: seq<string>, parse: Parser) {
    forall i, j :: 0 <= i < |phones| && 0 <= j < |phones| ==> !Clash(Trim(phones[i]), Trim(phones[j]), parse)
  }

  // ---- listing ----

  /** The phones of b are those of a: what every later step keeps. */
  predicate SamePeople(a: Table, b: Table) {
    a.Keys == b.Keys && forall k :: k in a ==> a[k].phone == b[k].phone
  }

  /** An entry that mention p can select. */
  predicate Selects(statuses: Table, p: string, key: string) {
    && key in statuses
    && if RawKey(p) in statuses then key == RawKey(p) else statuses[key].phone == p
  }

  ghost function Lookup(statuses: Table, p: string): (key: Option<string>)
    ensures key.Some? ==> Selects(statuses, p, key.value)
    ensures key.None? ==> forall k :: !Selects(statuses, p, k)
  {
    if exists k :: Selects(statuses, p, k) then
      var k :| Selects(statuses, p, k);
      Some(k)
    else None
  }

  /** Two entries never carry the same phone. */
  predicate Unambiguous(statuses: Table) {
    forall j, k :: j in statuses && k in statuses && statuses[j].phone == statuses[k].phone ==> j == k
  }

  ghost function ListedKeys(statuses: Table, phones: seq<string>): (keys: seq<string>)
    ensures forall k :: k in keys ==> k in statuses
  {
    if phones == [] then []
    else
      var before := ListedKeys(statuses, phones[..|phones| - 1]);
      var p := Trim(phones[|phones| - 1]);
      if p == "" then before
      else
        match Lookup(statuses, p)
        case None => before
        case Some(k) => if k in before then before else before + [k]
  }

  function Entries(statuses: Table, keys: seq<string>): seq<Status>
    requires forall k :: k in keys ==> k in statuses
  {
    seq(|keys|, i requires 0 <= i < |keys| => statuses[keys[i]])
  }

  /** Scans the table in an arbitrary order. */
  method FindByPhone(statuses: Table, p: string) returns (key: Option<string>)
    ensures key.Some? ==> key.value in statuses && statuses[key.value].phone == p
    ensures key.None? ==> forall k :: k in statuses ==> statuses[k].phone != p
  {
    var left := statuses.Keys;
    while left != {}
      invariant left <= statuses.Keys
      invariant forall k :: k in statuses.Keys - left ==> statuses[k].phone != p
      decreases |left|
    {
      var k :| k in left;
      if statuses[k].phone == p {
        return Some(k);
      }
      left := left - {k};
    }
    key := None;
  }

  /** On every table that the resolution of these phones leads to, the answer is the reference list
      whatever order the table is scanned in. */
  method StatusList(statuses: Table, phones: seq<string>) returns (out: seq<Status>)
    ensures Unambiguous(statuses) ==> out == Entries(statuses, ListedKeys(statuses, phones))
    ensures forall parse: Parser :: SamePeople(Resolve(phones, parse).statuses, statuses) ==>
      out == Entries(statuses, ListedKeys(statuses, phones))
  {
    out := [];
    var emitted: set<string> := {};
    ghost var keys: seq<string> := [];
    for i := 0 to |phones|
      invariant forall k :: k in keys ==> k in statuses
      invariant Unambiguous(statuses) ==> keys == ListedKeys(statuses, phones[..i])
      invariant emitted == set k | k in keys
      invariant out == Entries(statuses, keys)
    {
      assert phones[..i + 1][..i] == phones[..i];
      var p := Trim(phones[i]);
      if p == "" {
        continue;
      }
      var found: Option<string>;
      if "raw:" + p in statuses {
        found := Some("raw:" + p);
      } else {
        found := FindByPhone(statuses, p);
      }
      assert found.Some? ==> Selects(statuses, p, found.value);
      assert found.None? ==> forall k :: !Selects(statuses, p, k);
      if found.None? || found.value in emitted {
        continue;
      }
      emitted := emitted + {found.value};
      out := out + [statuses[found.value]];
      keys := keys + [found.value];
    }
    assert phones[..|phones|] == phones;
    forall parse: Parser | SamePeople(Resolve(phones, parse).statuses, statuses) ensures Unambiguous(statuses) {
      ResolvedUnambiguous(phones, parse, statuses);
    }
  }

  // ---- what the table holds ----

  /** Every entry sits under the key its own phone has, and its phone was mentioned. */
  predicate Keyed(statuses: Table, phones: seq<string>, parse: Parser) {
    forall k :: k in statuses ==> KeyOf(statuses[k].phone, parse) == k && Mentioned(phones, statuses[k].phone)
  }

  lemma RawKeyInjective(p: string, q: string)
    requires RawKey(p) == RawKey(q)
    ensures p == q
  {
    assert RawKey(p)[4..] == p && RawKey(q)[4..] == q;
  }

  lemma MentionedLonger(phones: seq<string>, longer: seq<string>, p: string)
    requires phones <= longer && Mentioned(phones, p)
    ensures Mentioned(longer, p)
  {
    var i :| 0 <= i < |phones| && Trim(phones[i]) == p;
    assert Trim(longer[i]) == p;
  }

  lemma KeyedLonger(statuses: Table, phones: seq<string>, longer: seq<string>, parse: Parser)
    requires phones <= longer && Keyed(statuses, phones, parse)
    ensures Keyed(statuses, longer, parse)
  {
    forall k | k in statuses ensures Mentioned(longer, statuses[k].phone) {
      MentionedLonger(phones, longer, statuses[k].phone);
    }
  }

  lemma MentionKeyed(r: Resolution, phone: string, phones: seq<string>, parse: Parser)
    requires Keyed(r.statuses, phones, parse) && (Trim(phone) != "" ==> Mentioned(phones, Trim(phone)))
    ensures Keyed(Mention(r, phone, parse).statuses, phones, parse)
  {
  }

  lemma MentionKeys(r: Resolution, phone: string, parse: Parser)
    requires r.seen <= r.statuses.Keys
    ensures var p := Trim(phone); var after := Mention(r, phone, parse);
      && after.statuses.Keys == (if p == "" then r.statuses.Keys else r.statuses.Keys + {KeyOf(p, parse)})
      && after.seen <= after.statuses.Keys
  {
  }

  lemma {:induction false} ResolveKeys(phones: seq<string>, parse: Parser)
    ensures var r := Resolve(phones, parse);
      r.seen <= r.statuses.Keys && forall k :: k in r.statuses.Keys <==> k in FirstMentions(phones, parse)
  {
    if phones != [] {
      var n := |phones| - 1;
      ResolveKeys(phones[..n], parse);
      MentionKeys(Resolve(phones[..n], parse), phones[n], parse);
    }
  }

  /** For every parser: the entries are keyed by their phones and are exactly the participants mentioned,
      and the users of the resolved mentions are among them. */
  lemma {:induction false} ResolveKeyed(phones: seq<string>, parse: Parser)
    ensures Keyed(Resolve(phones, parse).statuses, phones, parse)
    ensures forall k :: k in Resolve(phones, parse).statuses <==> k in FirstMentions(phones, parse)
    ensures forall k :: k in Resolve(phones, parse).seen ==> k in Resolve(phones, parse).statuses
  {
    ResolveKeys(phones, parse);
    if phones != [] {
      var n := |phones| - 1;
      ResolveKeyed(phones[..n], parse);
      KeyedLonger(Resolve(phones[..n], parse).statuses, phones[..n], phones, parse);
      assert Trim(phones[n]) != "" ==> Mentioned(phones, Trim(phones[n]));
      MentionKeyed(Resolve(phones[..n], parse), phones[n], phones, parse);
    }
  }

  /** For every parser no two entries carry the same phone, so the order of a scan never matters. */
  lemma ResolvedUnambiguous(phones: seq<string>, parse: Parser, statuses: Table)
    requires SamePeople(Resolve(phones, parse).statuses, statuses)
    ensures Unambiguous(statuses)
  {
    ResolveKeyed(phones, parse);
  }

  // ---- which entries are listed ----

  lemma LookupSelects(statuses: Table, p: string, k: string)
    requires Unambiguous(statuses)
    ensures Lookup(statuses, p) == Some(k) <==> Selects(statuses, p, k)
  {
  }

  /** Some mention selects the entry. */
  predicate Selected(statuses: Table, phones: seq<string>, k: string) {
    exists i :: 0 <= i < |phones| && Trim(phones[i]) != "" && Selects(statuses, Trim(phones[i]), k)
  }

  lemma SelectedNext(statuses: Table, phones: seq<string>, k: string)
    requires phones != []
    ensures var n := |phones| - 1; var last := Trim(phones[n]);
      Selected(statuses, phones, k) <==>
        Selected(statuses, phones[..n], k) || (last != "" && Selects(statuses, last, k))
  {
    var n := |phones| - 1;
    if Selected(statuses, phones[..n], k) {
      var i :| 0 <= i < n && Trim(phones[..n][i]) != "" && Selects(statuses, Trim(phones[..n][i]), k);
      assert Selects(statuses, Trim(phones[i]), k);
    }
    if i :| 0 <= i < n && Trim(phones[i]) != "" && Selects(statuses, Trim(phones[i]), k) {
      assert Selects(statuses, Trim(phones[..n][i]), k);
    }
  }

  lemma {:induction false} ListedIffSelected(statuses: Table, phones: seq<string>, k: string)
    requires Unambiguous(statuses)
    ensures k in ListedKeys(statuses, phones) <==> Selected(statuses, phones, k)
  {
    if phones != [] {
      ListedIffSelected(statuses, phones[..|phones| - 1], k);
      SelectedNext(statuses, phones, k);
      LookupSelects(statuses, Trim(phones[|phones| - 1]), k);
    }
  }

  lemma MentionSelects(statuses: Table, phones: seq<string>, p: string, k: string)
    requires Mentioned(phones, p) && Selects(statuses, p, k)
    ensures Selected(statuses, phones, k)
  {
    var i :| 0 <= i < |phones| && Trim(phones[i]) == p;
    assert Selects(statuses, Trim(phones[i]), k);
  }

  /** For every parser, an entry is listed if and only if its phone is not also a raw name of the table,
      or the entry's own key is the raw name of a mention. */
  lemma ListedExactly(phones: seq<string>, parse: Parser, statuses: Table, k: string)
    requires SamePeople(Resolve(phones, parse).statuses, statuses) && k in statuses
    ensures k in ListedKeys(statuses, phones) <==>
      RawKey(statuses[k].phone) !in statuses || exists p :: Mentioned(phones, p) && RawKey(p) == k
  {
    ResolveKeyed(phones, parse);
    ResolvedUnambiguous(phones, parse, statuses);
    ListedIffSelected(statuses, phones, k);
    var own := statuses[k].phone;
    assert Mentioned(phones, own);
    if RawKey(own) !in statuses {
      MentionSelects(statuses, phones, own, k);
    }
    if p :| Mentioned(phones, p) && RawKey(p) == k {
      MentionSelects(statuses, phones, p, k);
    }
    if Selected(statuses, phones, k) && RawKey(own) in statuses {
      var i :| 0 <= i < |phones| && Trim(phones[i]) != "" && Selects(statuses, Trim(phones[i]), k);
      assert Mentioned(phones, Trim(phones[i])) && RawKey(Trim(phones[i])) == k;
    }
  }

  lemma {:induction false} ListedDistinct(statuses: Table, phones: seq<string>)
    ensures Distinct(ListedKeys(statuses, phones))
  {
    if phones != [] {
      ListedDistinct(statuses, phones[..|phones| - 1]);
    }
  }

  // ---- the order of the list ----

  lemma NoClashBetween(phones: seq<string>, parse: Parser, p: string, q: string)
    requires NoClash(phones, parse)
    ensures Mentioned(phones, p) && Mentioned(phones, q) && Resolves(q, parse) ==> parse(q).jid.user != RawKey(p)
  {
    if Mentioned(phones, p) && Mentioned(phones, q) {
      var i :| 0 <= i < |phones| && Trim(phones[i]) == p;
      var j :| 0 <= j < |phones| && Trim(phones[j]) == q;
      assert !Clash(Trim(phones[i]), Trim(phones[j]), parse);
    }
  }

  /** Without a clash, the entry under a raw name belongs to the mention of that name. */
  lemma RawEntryIsOwn(statuses: Table, phones: seq<string>, parse: Parser, p: string)
    requires Keyed(statuses, phones, parse) && NoClash(phones, parse) && Mentioned(phones, p) && RawKey(p) in statuses
    ensures statuses[RawKey(p)].phone == p && !Resolves(p, parse)
  {
    var q := statuses[RawKey(p)].phone;
    if Resolves(q, parse) {
      NoClashBetween(phones, parse, p, q);
    } else {
      RawKeyInjective(p, q);
    }
  }

  /** The users of resolved entries have been seen. */
  predicate Seen(r: Resolution, parse: Parser) {
    forall k :: k in r.statuses && Resolves(r.statuses[k].phone, parse) ==> k in r.seen
  }

  lemma {:induction false} ResolveSeen(phones: seq<string>, parse: Parser)
    ensures Seen(Resolve(phones, parse), parse)
  {
    if phones != [] {
      ResolveSeen(phones[..|phones| - 1], parse);
    }
  }

  /** Without a clash, a later mention changes no phone already in the table. */
  lemma MentionKeepsPhones(r: Resolution, phone: string, phones: seq<string>, parse: Parser, k: string)
    requires Keyed(r.statuses, phones, parse) && Seen(r, parse) && NoClash(phones, parse) && k in r.statuses
    requires Trim(phone) != "" ==> Mentioned(phones, Trim(phone))
    ensures k in Mention(r, phone, parse).statuses && Mention(r, phone, parse).statuses[k].phone == r.statuses[k].phone
  {
    var p := Trim(phone);
    NoClashBetween(phones, parse, r.statuses[k].phone, p);
    if p != "" && !Resolves(p, parse) && k == RawKey(p) {
      RawEntryIsOwn(r.statuses, phones, parse, p);
    }
  }

  /** Without a clash, one mention selects its own entry, or none when another mention came first. */
  lemma LookupOwn(statuses: Table, p: string, phones: seq<string>, parse: Parser)
    requires Keyed(statuses, phones, parse) && NoClash(phones, parse) && Mentioned(phones, p)
    requires KeyOf(p, parse) in statuses
    ensures Lookup(statuses, p) in {None, Some(KeyOf(p, parse))}
    ensures statuses[KeyOf(p, parse)].phone == p ==> Lookup(statuses, p).Some?
  {
    var key := KeyOf(p, parse);
    if RawKey(p) in statuses {
      RawEntryIsOwn(statuses, phones, parse, p);
      assert Selects(statuses, p, RawKey(p));
    } else if statuses[key].phone == p {
      assert Selects(statuses, p, key);
    }
  }

  /** The table has the phones of the resolution so far. */
  predicate Extends(statuses: Table, r: Resolution) {
    forall k :: k in r.statuses ==> k in statuses && statuses[k].phone == r.statuses[k].phone
  }

  lemma {:induction false} ListedAre(statuses: Table, phones: seq<string>, all: seq<string>, parse: Parser)
    requires phones <= all && NoClash(all, parse) && Keyed(statuses, all, parse)
    requires Extends(statuses, Resolve(phones, parse))
    ensures ListedKeys(statuses, phones) == FirstMentions(phones, parse)
  {
    if phones != [] {
      var n := |phones| - 1;
      var before := Resolve(phones[..n], parse);
      var p := Trim(phones[n]);
      ResolveKeyed(phones[..n], parse);
      ResolveSeen(phones[..n], parse);
      KeyedLonger(before.statuses, phones[..n], all, parse);
      assert p != "" ==> Mentioned(phones, p);
      if p != "" {
        MentionedLonger(phones, all, p);
      }
      forall k | k in before.statuses ensures k in statuses && statuses[k].phone == before.statuses[k].phone {
        MentionKeepsPhones(before, phones[n], all, parse, k);
      }
      ListedAre(statuses, phones[..n], all, parse);
      if p != "" {
        LastListed(statuses, phones, all, parse);
      }
    }
  }

  lemma LastListed(statuses: Table, phones: seq<string>, all: seq<string>, parse: Parser)
    requires phones != [] && Trim(phones[|phones| - 1]) != "" && phones <= all
    requires NoClash(all, parse) && Keyed(statuses, all, parse) && Extends(statuses, Resolve(phones, parse))
    ensures var n := |phones| - 1; var p := Trim(phones[n]); var key := KeyOf(p, parse);
      && Lookup(statuses, p) in {None, Some(key)}
      && (key !in FirstMentions(phones[..n], parse) ==> Lookup(statuses, p) == Some(key))
  {
    var n := |phones| - 1; var p := Trim(phones[n]);
    assert Mentioned(phones, p);
    MentionedLonger(phones, all, p);
    ResolveKeyed(phones[..n], parse);
    ResolveKeyed(phones, parse);
    LookupOwn(statuses, p, all, parse);
    if KeyOf(p, parse) !in FirstMentions(phones[..n], parse) {
      assert Resolve(phones, parse).statuses[KeyOf(p, parse)].phone == p;
    }
  }

  predicate Distinct(keys: seq<string>) {
    forall i, j :: 0 <= i < j < |keys| ==> keys[i] != keys[j]
  }

  /** Without a clash, after any steps that keep the people, the list names every entry exactly once, in
      the order of first mention. */
  lemma ListedExactlyOnce(phones: seq<string>, parse: Parser, statuses: Table)
    requires NoClash(phones, parse) && SamePeople(Resolve(phones, parse).statuses, statuses)
    ensures ListedKeys(statuses, phones) == FirstMentions(phones, parse)
    ensures Distinct(ListedKeys(statuses, phones))
    ensures forall k :: k in statuses <==> k in ListedKeys(statuses, phones)
  {
    ResolveKeyed(phones, parse);
    ListedAre(statuses, phones, phones, parse);
    ListedDistinct(statuses, phones);
  }

  // ---- an entry that is hidden ----

  /** With a library that parses an address to the user part "raw:" + n, and n a number mentioned as
      well, the number's own entry is never listed: its place is taken by the address. */
  lemma RawUserHidesEntry(n: string, address: string, cc: string, lib: string -> JidResult)
    requires AllDigits(n) && |n| >= 7 && n[0] != '0'
    requires Trim(address) == address && IsAddress(address) && lib(address) == Parsed(Jid(RawKey(n), USER_SERVER))
    ensures var parse: Parser := s => ParseJid(s, cc, lib);
      var statuses := Resolve([n, address], parse).statuses;
      n in statuses && n !in ListedKeys(statuses, [n, address])
  {
    var parse: Parser := s => ParseJid(s, cc, lib);
    var phones := [n, address];
    FullNumber(n, cc);
    NumberParses(n, cc, lib);
    assert phones[..1] == [n] && [n][..0] == [];
    var one, two := Resolve([n], parse), Resolve(phones, parse);
    assert one == Mention(Resolve([], parse), n, parse);
    assert address != "" && parse(address) == Parsed(Jid(RawKey(n), USER_SERVER));
    assert two == Mention(one, address, parse);
    assert |RawKey(n)| == 4 + |n|;
    assert two.statuses.Keys == {n, RawKey(n)} && two.statuses[n].phone == n;
    ListedExactly(phones, parse, two.statuses, n);
    forall p | Mentioned(phones, p) ensures RawKey(p) != n {
      assert RawKey(p)[0] == 'r';
    }
  }

  /** Such an input, with country code 62: the library takes the part after the dot off as a suffix and
      keeps the colon in the user part. */
  lemma RawUserExample()
    ensures var n, address := "6281234567", "raw:6281234567.0@s.whatsapp.net";
      var lib: string -> JidResult := s => Parsed(Jid(RawKey(n), USER_SERVER));
      var parse: Parser := s => ParseJid(s, "62", lib);
      var statuses := Resolve([n, address], parse).statuses;
      n in statuses && n !in ListedKeys(statuses, [n, address])
  {
    var n, address := "6281234567", "raw:6281234567.0@s.whatsapp.net";
    var lib: string -> JidResult := s => Parsed(Jid(RawKey(n), USER_SERVER));
    assert address[16] == '@';
    RawUserHidesEntry(n, address, "62", lib);
  }

  // ---- the participants of the group ----

  function UsersOf(jids: seq<Jid>): set<string> {
    set j | j in jids :: j.user
  }

  predicate DistinctUsers(jids: seq<Jid>) {
    forall i, j :: 0 <= i < j < |jids| ==> jids[i].user != jids[j].user
  }

  lemma {:induction false} ResolvedUsers(phones: seq<string>, parse: Parser)
    ensures var r := Resolve(phones, parse); DistinctUsers(r.jids) && UsersOf(r.jids) == r.seen
  {
    if phones != [] {
      var n := |phones| - 1;
      ResolvedUsers(phones[..n], parse);
      var r, p := Resolve(phones[..n], parse), Trim(phones[n]);
      if p != "" && Resolves(p, parse) && parse(p).jid.user !in r.seen {
        assert UsersOf(r.jids + [parse(p).jid]) == UsersOf(r.jids) + {parse(p).jid.user};
      }
    }
  }

  /** Exactly the entries whose phone resolves are pending. */
  predicate PendingFits(statuses: Table, parse: Parser) {
    forall k :: k in statuses ==> (statuses[k].state == Pending <==> Resolves(statuses[k].phone, parse))
  }

  lemma MentionFits(r: Resolution, phone: string, parse: Parser)
    requires PendingFits(r.statuses, parse)
    ensures PendingFits(Mention(r, phone, parse).statuses, parse)
  {
  }

  lemma {:induction false} ResolvedStates(phones: seq<string>, parse: Parser)
    ensures PendingFits(Resolve(phones, parse).statuses, parse)
  {
    if phones != [] {
      ResolvedStates(phones[..|phones| - 1], parse);
      MentionFits(Resolve(phones[..|phones| - 1], parse), phones[|phones| - 1], parse);
    }
  }

  /** For every parser: the participants are distinct; an entry is pending exactly when its phone resolves,
      and then it is a participant's; a participant's entry that is not pending has been taken over by an
      unresolved mention whose raw name is the user part. */
  lemma ResolvedPending(phones: seq<string>, parse: Parser)
    ensures var r := Resolve(phones, parse); DistinctUsers(r.jids) && UsersOf(r.jids) == r.seen
    ensures var r := Resolve(phones, parse);
      forall k :: k in r.statuses ==>
        && (r.statuses[k].state == Pending <==> Resolves(r.statuses[k].phone, parse))
        && (r.statuses[k].state == Pending ==> k in r.seen)
        && (r.statuses[k].state != Pending ==> k == RawKey(r.statuses[k].phone))
  {
    ResolvedUsers(phones, parse);
    ResolvedStates(phones, parse);
    ResolveKeyed(phones, parse);
    ResolveSeen(phones, parse);
  }

  lemma FullNumber(s: string, cc: string)
    requires AllDigits(s) && |s| >= 7 && s[0] != '0'
    ensures Normalize(s, cc) == Ok(s)
  {
    NormalizeVisible(s, cc);
    DigitsOfDigits(s);
  }

  lemma MentionSame(r: Resolution, phone: string, jid: Jid, parse: Parser)
    requires Trim(phone) != "" && parse(Trim(phone)) == Parsed(jid) && jid.server == USER_SERVER
    requires (r.jids == [] && r.seen == {}) || (r.jids == [jid] && r.seen == {jid.user})
    ensures Mention(r, phone, parse).jids == [jid] && Mention(r, phone, parse).seen == {jid.user}
  {
  }

  lemma {:induction false} SameNumber(phones: seq<string>, jid: Jid, parse: Parser)
    requires phones != [] && jid.server == USER_SERVER
    requires forall i :: 0 <= i < |phones| ==> Trim(phones[i]) != "" && parse(Trim(phones[i])) == Parsed(jid)
    ensures Resolve(phones, parse).jids == [jid] && Resolve(phones, parse).seen == {jid.user}
  {
    var n := |phones| - 1;
    var before := Resolve(phones[..n], parse);
    if n > 0 {
      assert forall i :: 0 <= i < n ==> phones[..n][i] == phones[i];
      SameNumber(phones[..n], jid, parse);
    } else {
      assert phones[..n] == [];
    }
    MentionSame(before, phones[n], jid, parse);
  }

  /** The ways to write the number d of country cc. */
  predicate IsForm(form: string, cc: string, d: string) {
    form == ['0'] + d || form == cc + d || form == ['+'] + cc + d
  }

  lemma FormParses(form: string, cc: string, d: string, lib: string -> JidResult)
    requires AllDigits(cc) && cc != "" && cc[0] != '0' && AllDigits(d) && |cc + d| >= 7 && IsForm(form, cc, d)
    ensures Trim(form) == form != ""
    ensures ParseJid(form, cc, lib) == Parsed(Jid(cc + d, USER_SERVER))
  {
    FullNumber(cc + d, cc);
    LocalFormAgrees(cc, d);
    PlusFormAgrees(cc, d);
    NumberParses(form, cc, lib);
  }

  /** The local, international and plus forms of a number are one participant, however often and in
      whatever order they are given. */
  lemma FormsMerge(phones: seq<string>, cc: string, d: string, lib: string -> JidResult)
    requires AllDigits(cc) && cc != "" && cc[0] != '0' && AllDigits(d) && |cc + d| >= 7
    requires phones != [] && forall i :: 0 <= i < |phones| ==> IsForm(phones[i], cc, d)
    ensures Resolve(phones, s => ParseJid(s, cc, lib)).jids == [Jid(cc + d, USER_SERVER)]
  {
    forall i | 0 <= i < |phones|
      ensures Trim(phones[i]) == phones[i] != ""
      ensures ParseJid(phones[i], cc, lib) == Parsed(Jid(cc + d, USER_SERVER))
    {
      FormParses(phones[i], cc, d, lib);
    }
    SameNumber(phones, Jid(cc + d, USER_SERVER), s => ParseJid(s, cc, lib));
  }

  /** Digits, with or without a plus, are parsed as a phone number. */
  lemma NumberParses(s: string, cc: string, lib: string -> JidResult)
    requires s != "" && (IsDigit(s[0]) || s[0] == '+') && IsDigit(s[|s| - 1]) && Normalize(s, cc).Ok?
    ensures Trim(s) == s
    ensures ParseJid(s, cc, lib) == Parsed(Jid(Normalize(s, cc).number, USER_SERVER))
  {
    assert !IsSpace(s[0]) && !IsSpace(s[|s| - 1]);
    NoDigitSuffix(s, "@g.us");
    NoDigitSuffix(s, "@s.whatsapp.net");
    NoDigitSuffix(s, "@newsletter");
    NoDigitSuffix(s, "@lid");
    NoDigitSuffix(s, "@c.us");
  }

  lemma NoDigitSuffix(s: string, suffix: string)
    requires s != "" && IsDigit(s[|s| - 1]) && suffix != "" && !IsDigit(suffix[|suffix| - 1])
    ensures !HasSuffix(s, suffix)
  {
    if |suffix| <= |s| {
      assert s[|s| - |suffix|..][|suffix| - 1] == s[|s| - 1];
    }
  }
}
