/** Rewriting `?` placeholders to numbered ones, and how the database reads the result. */
module Rebind {
  import opened Text

  // ---- decimal numbers ----

  function Digit(n: nat): char
    requires n < 10
  {
    '0' + n as char
  }

  function Decimal(n: nat): string {
    if n < 10 then [Digit(n)] else Decimal(n / 10) + [Digit(n % 10)]
  }

  function Value(s: string): nat
    requires AllDigits(s)
  {
    if s == "" then 0 else 10 * Value(s[..|s| - 1]) + (s[|s| - 1] - '0') as int
  }

  /** Reading inverts printing. */
  lemma {:induction false} DecimalRead(n: nat)
    ensures AllDigits(Decimal(n)) && Decimal(n) != "" && Value(Decimal(n)) == n
  {
    if n >= 10 {
      DecimalRead(n / 10);
      assert Decimal(n)[..|Decimal(n)| - 1] == Decimal(n / 10);
    } else {
      assert [Digit(n)][..0] == "";
    }
  }

  /** Every further digit makes the number at least ten times as large. */
  lemma {:induction false} ValueGrows(a: string, b: string)
    requires AllDigits(a) && AllDigits(b)
    ensures AllDigits(a + b) && Value(a + b) >= Value(a)
    ensures b != "" ==> Value(a + b) >= 10 * Value(a)
  {
    if b == "" {
      assert a + b == a;
    } else {
      ValueGrows(a, b[..|b| - 1]);
      assert (a + b)[..|a + b| - 1] == a + b[..|b| - 1];
    }
  }

  // ---- rewriting ----

  function RebindFrom(q: string, n: nat): string {
    if q == "" then ""
    else if q[0] == '?' then ['$'] + Decimal(n + 1) + RebindFrom(q[1..], n + 1)
    else [q[0]] + RebindFrom(q[1..], n)
  }

  method Rebind(query: string) returns (r: string)
    ensures r == RebindFrom(query, 0)
  {
    if '?' !in query {
      NothingToRebind(query, 0);
      return query;
    }
    var b, n := "", 0;
    for i := 0 to |query|
      invariant n >= 0
      invariant b + RebindFrom(query[i..], n) == RebindFrom(query, 0)
    {
      ghost var tail := RebindFrom(query[i + 1..], if query[i] == '?' then n + 1 else n);
      assert query[i..][1..] == query[i + 1..];
      if query[i] == '?' {
        n := n + 1;
        Regroup(b, ['$'], Decimal(n), tail);
        b := b + ['$'];
        b := b + Decimal(n);
        continue;
      }
      Regroup(b, [query[i]], [], tail);
      b := b + [query[i]];
    }
    assert query[|query|..] == "";
    r := b;
  }

  lemma Regroup(a: string, b: string, c: string, d: string)
    ensures a + (b + c + d) == a + b + c + d
    ensures b + [] == b && a + b + [] == a + b
  {
  }

  lemma {:induction false} NothingToRebind(q: string, n: nat)
    requires '?' !in q
    ensures RebindFrom(q, n) == q
  {
    if q != "" {
      NothingToRebind(q[1..], n);
    }
  }

  // ---- reading ----

  datatype Token = Lit(c: char) | Param(k: nat)

  /** The digits s starts with. */
  function Run(s: string): (r: string)
    ensures AllDigits(r) && |r| <= |s|
  {
    if s == "" || !IsDigit(s[0]) then "" else [s[0]] + Run(s[1..])
  }

  /** A dollar sign and the digits after it, as many as there are, name a parameter. */
  function Read(s: string): seq<Token>
    decreases |s|
  {
    if s == "" then []
    else if s[0] == '$' && Run(s[1..]) != "" then [Param(Value(Run(s[1..])))] + Read(s[1 + |Run(s[1..])|..])
    else [Lit(s[0])] + Read(s[1..])
  }

  /** What the query means: its k-th question mark is parameter k. */
  function Numbered(q: string, n: nat): seq<Token> {
    if q == "" then []
    else if q[0] == '?' then [Param(n + 1)] + Numbered(q[1..], n + 1)
    else [Lit(q[0])] + Numbered(q[1..], n)
  }

  /** What the database reads, in terms of the query: digits after a placeholder become part of its number. */
  function Fused(q: string, n: nat): seq<Token>
    decreases |q|
  {
    if q == "" then []
    else
      var ds := Run(q[1..]);
      if q[0] == '?' then
        DecimalRead(n + 1);
        [Param(Value(Decimal(n + 1) + ds))] + Fused(q[1 + |ds|..], n + 1)
      else if q[0] == '$' && ds != "" then [Param(Value(ds))] + Fused(q[1 + |ds|..], n)
      else [Lit(q[0])] + Fused(q[1..], n)
  }

  lemma {:induction false} RunAfterDigits(d: string, s: string)
    requires AllDigits(d)
    ensures Run(d + s) == d + Run(s)
  {
    if d == "" {
      assert d + s == s;
    } else {
      assert (d + s)[1..] == d[1..] + s;
      RunAfterDigits(d[1..], s);
    }
  }

  /** Digits are copied, so a run of them stays one, and what follows is rewritten as before. */
  lemma {:induction false} RunCopied(q: string, n: nat)
    ensures Run(RebindFrom(q, n)) == Run(q)
    ensures RebindFrom(q, n)[|Run(q)|..] == RebindFrom(q[|Run(q)|..], n)
  {
    if q != "" && IsDigit(q[0]) {
      RunCopied(q[1..], n);
      var r := RebindFrom(q[1..], n);
      assert RebindFrom(q, n) == [q[0]] + r && ([q[0]] + r)[1..] == r;
      assert q[|Run(q)|..] == q[1..][|Run(q[1..])|..];
      assert RebindFrom(q, n)[|Run(q)|..] == r[|Run(q[1..])|..];
    } else if q != "" && q[0] == '?' {
      assert RebindFrom(q, n)[0] == '$';
    }
  }

  /** The database reads the rewritten query so, whatever the query. */
  lemma {:induction false} ReadIsFused(q: string, n: nat)
    ensures Read(RebindFrom(q, n)) == Fused(q, n)
    decreases |q|
  {
    if q != "" {
      var ds := Run(q[1..]);
      assert q[1..][|ds|..] == q[1 + |ds|..];
      if q[0] == '?' {
        RunCopied(q[1..], n + 1);
        ReadIsFused(q[1 + |ds|..], n + 1);
        ReadPlaceholder(n + 1, RebindFrom(q[1..], n + 1));
      } else {
        RunCopied(q[1..], n);
        if q[0] == '$' && ds != "" {
          ReadIsFused(q[1 + |ds|..], n);
          ReadDollar(RebindFrom(q[1..], n));
        } else {
          ReadIsFused(q[1..], n);
          ReadLiteral(q[0], RebindFrom(q[1..], n));
        }
      }
    }
  }

  lemma ReadLiteral(c: char, s: string)
    requires c != '$' || Run(s) == ""
    ensures Read([c] + s) == [Lit(c)] + Read(s)
  {
    assert ([c] + s)[1..] == s;
  }

  lemma ReadPlaceholder(n: nat, rest: string)
    ensures AllDigits(Decimal(n))
    ensures Read(['$'] + Decimal(n) + rest) == [Param(Value(Decimal(n) + Run(rest)))] + Read(rest[|Run(rest)|..])
  {
    DecimalRead(n);
    ReadNumber(Decimal(n), rest);
  }

  lemma ReadNumber(d: string, rest: string)
    requires AllDigits(d) && d != ""
    ensures Read(['$'] + d + rest) == [Param(Value(d + Run(rest)))] + Read(rest[|Run(rest)|..])
  {
    RunAfterDigits(d, rest);
    ReadDollar(d + rest);
    assert ['$'] + d + rest == ['$'] + (d + rest);
    assert (d + rest)[|d + Run(rest)|..] == rest[|Run(rest)|..];
  }

  lemma ReadDollar(s: string)
    requires Run(s) != ""
    ensures Read(['$'] + s) == [Param(Value(Run(s)))] + Read(s[|Run(s)|..])
  {
    var t := ['$'] + s;
    assert t[1..] == s && t[1 + |Run(s)|..] == s[|Run(s)|..];
  }

  /** No placeholder and no dollar sign is directly followed by a digit. */
  predicate Clean(q: string) {
    forall i :: 0 <= i < |q| - 1 && q[i] in "?$" ==> !IsDigit(q[i + 1])
  }

  lemma CleanParts(q: string)
    requires q != ""
    ensures Clean(q) <==> Clean(q[1..]) && !(q[0] in "?$" && Run(q[1..]) != "")
  {
    if Clean(q[1..]) && !(q[0] in "?$" && Run(q[1..]) != "") {
      forall i | 0 <= i < |q| - 1 && q[i] in "?$" ensures !IsDigit(q[i + 1]) {
        if i > 0 {
          assert q[1..][i - 1] == q[i];
        }
      }
    }
    if Clean(q) {
      assert forall i :: 0 <= i < |q| - 1 ==> q[1..][i] == q[i + 1];
    }
  }

  lemma {:induction false} FusedExactly(q: string, n: nat)
    ensures Fused(q, n) == Numbered(q, n) <==> Clean(q)
    decreases |q|
  {
    if q != "" {
      var ds := Run(q[1..]);
      CleanParts(q);
      if q[0] == '?' {
        DecimalRead(n + 1);
        if ds == "" {
          assert Decimal(n + 1) + ds == Decimal(n + 1);
          FusedExactly(q[1..], n + 1);
          SameHead(Param(n + 1), Fused(q[1..], n + 1), Numbered(q[1..], n + 1));
        } else {
          ValueGrows(Decimal(n + 1), ds);
          assert Fused(q, n)[0] != Numbered(q, n)[0];
        }
      } else if q[0] == '$' && ds != "" {
        assert Fused(q, n)[0] != Numbered(q, n)[0];
      } else {
        FusedExactly(q[1..], n);
        SameHead(Lit(q[0]), Fused(q[1..], n), Numbered(q[1..], n));
      }
    }
  }

  lemma SameHead(x: Token, a: seq<Token>, b: seq<Token>)
    ensures [x] + a == [x] + b <==> a == b
  {
    assert ([x] + a)[1..] == a && ([x] + b)[1..] == b;
  }

  /** The database reads the query's own meaning exactly when no placeholder and no dollar sign is
      directly followed by a digit. */
  lemma MeaningKeptExactly(q: string)
    ensures Read(RebindFrom(q, 0)) == Numbered(q, 0) <==> Clean(q)
  {
    ReadIsFused(q, 0);
    FusedExactly(q, 0);
  }

  /** A placeholder with a digit behind it: "?5" is sent as "$15", which names parameter 15. */
  lemma FusedExample()
    ensures Read(RebindFrom("?5", 0)) == [Param(15)] && Numbered("?5", 0) == [Param(1), Lit('5')]
  {
    assert Decimal(1) == ['1'] && Run("5") == ['5'];
    ReadIsFused("?5", 0);
    assert ['1', '5'][..1] == ['1'] && ['1'][..0] == [];
    assert Value(['1']) == 1 && Value(['1', '5']) == 15;
  }

  /** The query a token sequence was written as. */
  function Source(ts: seq<Token>): string {
    if ts == [] then "" else [if ts[0].Param? then '?' else ts[0].c] + Source(ts[1..])
  }

  function Params(ts: seq<Token>): seq<nat> {
    if ts == [] then [] else (if ts[0].Param? then [ts[0].k] else []) + Params(ts[1..])
  }

  lemma {:induction false} NumberedRecovers(q: string, n: nat)
    ensures Source(Numbered(q, n)) == q
    ensures forall i :: 0 <= i < |Params(Numbered(q, n))| ==> Params(Numbered(q, n))[i] == n + 1 + i
  {
    if q != "" {
      NumberedRecovers(q[1..], if q[0] == '?' then n + 1 else n);
    }
  }

  /** Then the rewritten query gives the original back, and its k-th placeholder is bound to argument k. */
  lemma PlaceholdersInOrder(q: string)
    requires Clean(q)
    ensures var ts := Read(RebindFrom(q, 0));
            Source(ts) == q && forall i :: 0 <= i < |Params(ts)| ==> Params(ts)[i] == i + 1
  {
    MeaningKeptExactly(q);
    NumberedRecovers(q, 0);
  }
}
