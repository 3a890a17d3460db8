/** Phone normalisation and recipient parsing. */
module Phone {
  import opened Text

  datatype PhoneError = Empty | NoDigits | LeadingZero(number: string) | TooShort(number: string)

  datatype PhoneResult = Ok(number: string) | Err(error: PhoneError)

  /** Unicode white space. */
  predicate IsSpace(c: char) {
    '\t' <= c <= '\r' || c == ' ' || c == '\U{0085}' || c == '\U{00A0}' || c == '\U{1680}'
    || '\U{2000}' <= c <= '\U{200A}' || c == '\U{2028}' || c == '\U{2029}' || c == '\U{202F}'
    || c == '\U{205F}' || c == '\U{3000}'
  }

  function TrimLeft(s: string): string {
    if s != "" && IsSpace(s[0]) then TrimLeft(s[1..]) else s
  }

  function TrimRight(s: string): string {
    if s != "" && IsSpace(s[|s| - 1]) then TrimRight(s[..|s| - 1]) else s
  }

  function Trim(s: string): string {
    TrimRight(TrimLeft(s))
  }

  predicate AllSpace(s: string) {
    forall i :: 0 <= i < |s| ==> IsSpace(s[i])
  }

  lemma {:induction false} TrimLeftExactly(s: string) returns (before: string)
    ensures s == before + TrimLeft(s) && AllSpace(before)
    ensures TrimLeft(s) != "" ==> !IsSpace(TrimLeft(s)[0])
  {
    before := "";
    if s != "" && IsSpace(s[0]) {
      var rest := TrimLeftExactly(s[1..]);
      before := [s[0]] + rest;
      assert s == [s[0]] + s[1..];
    }
  }

  lemma {:induction false} TrimRightExactly(s: string) returns (after: string)
    ensures s == TrimRight(s) + after && AllSpace(after)
    ensures TrimRight(s) != "" ==> !IsSpace(TrimRight(s)[|TrimRight(s)| - 1]) && TrimRight(s)[0] == s[0]
  {
    after := "";
    if s != "" && IsSpace(s[|s| - 1]) {
      var rest := TrimRightExactly(s[..|s| - 1]);
      after := rest + [s[|s| - 1]];
      assert s == s[..|s| - 1] + [s[|s| - 1]];
    }
  }

  /** Trimming takes away white space at both ends, all of it and nothing else. */
  lemma TrimExactly(s: string) returns (before: string, after: string)
    ensures s == before + Trim(s) + after && AllSpace(before) && AllSpace(after)
    ensures Trim(s) != "" ==> !IsSpace(Trim(s)[0]) && !IsSpace(Trim(s)[|Trim(s)| - 1])
  {
    before := TrimLeftExactly(s);
    after := TrimRightExactly(TrimLeft(s));
    assert s == before + (Trim(s) + after);
  }

  /** The digits of s, in order. */
  function Digits(s: string): (d: string)
    ensures AllDigits(d)
  {
    if s == "" then "" else Digits(s[..|s| - 1]) + if IsDigit(s[|s| - 1]) then [s[|s| - 1]] else ""
  }

  predicate HasPlus(s: string) {
    Trim(s) != "" && Trim(s)[0] == '+'
  }

  /** What the digits mean: a local number without a plus gets the country code for its leading zero. */
  function FromDigits(plus: bool, d: string, cc: string): PhoneResult {
    if d == "" then Err(NoDigits)
    else
      var n := if !plus && cc != "" && d[0] == '0' then cc + d[1..] else d;
      if n != "" && n[0] == '0' then Err(LeadingZero(n)) else if |n| < 7 then Err(TooShort(n)) else Ok(n)
  }

  function Normalize(raw: string, cc: string): PhoneResult {
    if Trim(raw) == "" then Err(Empty) else FromDigits(HasPlus(raw), Digits(Trim(raw)), cc)
  }

  method NormalizePhone(input: string, defaultCC: string) returns (r: PhoneResult)
    ensures r == Normalize(input, defaultCC)
    ensures r == Err(Empty) <==> Trim(input) == ""
    ensures r == Err(NoDigits) <==> Trim(input) != "" && Digits(Trim(input)) == ""
    ensures r != Err(Empty) && r != Err(NoDigits) ==>
      var d := Digits(Trim(input));
      var n := if Trim(input)[0] != '+' && defaultCC != "" && d[0] == '0' then defaultCC + d[1..] else d;
      if n != "" && n[0] == '0' then r == Err(LeadingZero(n))
      else if |n| < 7 then r == Err(TooShort(n))
      else r == Ok(n)
  {
    var raw := Trim(input);
    if raw == "" {
      return Err(Empty);
    }
    var hasPlus := raw[0] == '+';
    var b := "";
    for i := 0 to |raw|
      invariant b == Digits(raw[..i])
    {
      assert raw[..i + 1][..i] == raw[..i];
      if '0' <= raw[i] <= '9' {
        b := b + [raw[i]];
      }
    }
    assert raw[..|raw|] == raw;
    if b == "" {
      return Err(NoDigits);
    }
    if !hasPlus && defaultCC != "" && b[0] == '0' {
      b := defaultCC + b[1..];
    }
    if b != "" && b[0] == '0' {
      return Err(LeadingZero(b));
    }
    if |b| < 7 {
      return Err(TooShort(b));
    }
    r := Ok(b);
  }

  lemma {:induction false} DigitsConcat(a: string, b: string)
    ensures Digits(a + b) == Digits(a) + Digits(b)
  {
    if b == "" {
      assert a + b == a;
    } else {
      var n := |b| - 1;
      DigitsConcat(a, b[..n]);
      assert (a + b)[..|a| + n] == a + b[..n];
      assert (a + b)[|a| + n] == b[n];
    }
  }

  lemma {:induction false} DigitsOfDigits(d: string)
    requires AllDigits(d)
    ensures Digits(d) == d
  {
    if d != "" {
      DigitsOfDigits(d[..|d| - 1]);
    }
  }

  lemma {:induction false} TrimLeftDigits(s: string)
    ensures Digits(TrimLeft(s)) == Digits(s)
  {
    if s != "" && IsSpace(s[0]) {
      TrimLeftDigits(s[1..]);
      DigitsConcat([s[0]], s[1..]);
      assert s == [s[0]] + s[1..];
      assert [s[0]][..0] == "";
    }
  }

  lemma {:induction false} TrimRightDigits(s: string)
    ensures Digits(TrimRight(s)) == Digits(s)
  {
    if s != "" && IsSpace(s[|s| - 1]) {
      TrimRightDigits(s[..|s| - 1]);
    }
  }

  /** Trimming removes no digit. */
  lemma TrimDigits(s: string)
    ensures Digits(Trim(s)) == Digits(s)
  {
    TrimLeftDigits(s);
    TrimRightDigits(TrimLeft(s));
  }

  /** A string that starts with a visible character keeps it. */
  lemma {:induction false} TrimKeepsHead(s: string)
    requires s != "" && !IsSpace(s[0])
    ensures Trim(s) != "" && Trim(s)[0] == s[0]
  {
    TrimRightKeepsHead(s);
  }

  lemma {:induction false} TrimRightKeepsHead(s: string)
    requires s != "" && !IsSpace(s[0])
    ensures TrimRight(s) != "" && TrimRight(s)[0] == s[0]
  {
    if IsSpace(s[|s| - 1]) {
      TrimRightKeepsHead(s[..|s| - 1]);
    }
  }

  /** Success and number depend only on the leading plus and the digits. */
  lemma DependsOnPlusAndDigits(a: string, b: string, cc: string)
    requires HasPlus(a) == HasPlus(b) && Digits(a) == Digits(b)
    ensures Normalize(a, cc).Ok? == Normalize(b, cc).Ok?
    ensures Normalize(a, cc).Ok? ==> Normalize(a, cc) == Normalize(b, cc)
  {
    TrimDigits(a);
    TrimDigits(b);
  }

  /** A normalised number is all digits, at least seven long, without a leading zero. */
  lemma NormalForm(raw: string, cc: string)
    requires AllDigits(cc) && Normalize(raw, cc).Ok?
    ensures var n := Normalize(raw, cc).number; AllDigits(n) && |n| >= 7 && n[0] != '0'
  {
    var d := Digits(Trim(raw));
    assert AllDigits(d) && AllDigits(cc + d[1..]);
  }

  /** Normalising again, under any country code, changes nothing. */
  lemma Idempotent(raw: string, cc: string, other: string)
    requires AllDigits(cc) && Normalize(raw, cc).Ok?
    ensures Normalize(Normalize(raw, cc).number, other) == Normalize(raw, cc)
  {
    var n := Normalize(raw, cc).number;
    NormalForm(raw, cc);
    TrimKeepsHead(n);
    TrimDigits(n);
    DigitsOfDigits(n);
  }

  /** What comes after a visible first character only matters through its digits. */
  lemma NormalizeVisible(s: string, cc: string)
    requires s != "" && !IsSpace(s[0])
    ensures Normalize(s, cc) == FromDigits(s[0] == '+', Digits(s), cc)
  {
    TrimKeepsHead(s);
    TrimDigits(s);
  }

  lemma DigitsOfOne(c: char)
    ensures Digits([c]) == if IsDigit(c) then [c] else ""
  {
    assert [c][..0] == "";
  }

  lemma DigitsPrefixed(c: char, s: string)
    ensures Digits([c] + s) == if IsDigit(c) then [c] + Digits(s) else Digits(s)
  {
    DigitsOfOne(c);
    DigitsConcat([c], s);
  }

  lemma DigitsOfNumber(cc: string, d: string)
    requires AllDigits(cc)
    ensures Digits(cc + d) == cc + Digits(d)
  {
    DigitsConcat(cc, d);
    DigitsOfDigits(cc);
  }

  /** The local form and the international form are the same number. */
  lemma LocalFormAgrees(cc: string, d: string)
    requires AllDigits(cc) && cc != "" && cc[0] != '0'
    ensures Normalize(['0'] + d, cc) == Normalize(cc + d, cc)
  {
    DigitsOfNumber(cc, d);
    WithPrefix('0', d, cc);
    NormalizeVisible(cc + d, cc);
    LocalForm(cc, Digits(d));
  }

  /** The international form with and without the plus are the same number. */
  lemma PlusFormAgrees(cc: string, d: string)
    requires AllDigits(cc) && cc != "" && cc[0] != '0'
    ensures Normalize(['+'] + cc + d, cc) == Normalize(cc + d, cc)
  {
    DigitsOfNumber(cc, d);
    assert ['+'] + cc + d == ['+'] + (cc + d);
    WithPrefix('+', cc + d, cc);
    NormalizeVisible(cc + d, cc);
  }

  lemma WithPrefix(c: char, s: string, cc: string)
    requires !IsSpace(c)
    ensures Normalize([c] + s, cc) == FromDigits(c == '+', if IsDigit(c) then [c] + Digits(s) else Digits(s), cc)
  {
    DigitsPrefixed(c, s);
    NormalizeVisible([c] + s, cc);
  }

  lemma LocalForm(cc: string, d: string)
    requires AllDigits(cc) && cc != "" && cc[0] != '0'
    ensures FromDigits(false, ['0'] + d, cc) == FromDigits(false, cc + d, cc)
  {
    assert (['0'] + d)[1..] == d;
  }

  // ---- recipients ----

  datatype Jid = Jid(user: string, server: string)

  datatype JidResult = Parsed(jid: Jid) | Invalid

  const USER_SERVER := "s.whatsapp.net"

  predicate HasSuffix(s: string, suffix: string) {
    |suffix| <= |s| && s[|s| - |suffix|..] == suffix
  }

  predicate IsAddress(s: string) {
    HasSuffix(s, "@g.us") || HasSuffix(s, "@s.whatsapp.net") || HasSuffix(s, "@newsletter") || HasSuffix(s, "@lid")
  }

  /** Full addresses go to the library parser `lib`; everything else is a phone number, with or
      without the legacy suffix. */
  function ParseJid(input: string, cc: string, lib: string -> JidResult): JidResult {
    var raw := Trim(input);
    if raw == "" then Invalid
    else if IsAddress(raw) then lib(raw)
    else
      var bare := if HasSuffix(raw, "@c.us") then raw[..|raw| - 5] else raw;
      match Normalize(bare, cc)
      case Ok(number) => Parsed(Jid(number, USER_SERVER))
      case Err(_) => Invalid
  }

  /** Addresses of groups, accounts, newsletters and privacy aliases go to the library. */
  lemma AddressesGoToLibrary(p: string, suffix: string, cc: string, lib: string -> JidResult)
    requires suffix in {"@g.us", "@s.whatsapp.net", "@newsletter", "@lid"} && Trim(p + suffix) == p + suffix
    ensures ParseJid(p + suffix, cc, lib) == lib(p + suffix)
  {
    assert (p + suffix)[|p + suffix| - |suffix|..] == suffix;
  }

  lemma EndsIn(s: string, suffix: string)
    requires HasSuffix(s, suffix)
    ensures s == s[..|s| - |suffix|] + suffix
  {
  }

  /** Anything else is a phone number, the part before "@c.us" when it ends so: a recipient of the
      account server exactly when the number is well-formed. */
  lemma OthersAreNumbers(input: string, bare: string, cc: string, lib: string -> JidResult)
    requires Trim(input) != "" && forall p :: Trim(input) != p + "@g.us" && Trim(input) != p + "@s.whatsapp.net"
    requires forall p :: Trim(input) != p + "@newsletter" && Trim(input) != p + "@lid"
    requires Trim(input) == bare + "@c.us" || (bare == Trim(input) && forall p :: Trim(input) != p + "@c.us")
    ensures Normalize(bare, cc).Ok? ==>
      ParseJid(input, cc, lib) == Parsed(Jid(Normalize(bare, cc).number, "s.whatsapp.net"))
    ensures Normalize(bare, cc).Err? ==> ParseJid(input, cc, lib) == Invalid
  {
    var raw := Trim(input);
    NotEnding(raw, "@g.us");
    NotEnding(raw, "@s.whatsapp.net");
    NotEnding(raw, "@newsletter");
    NotEnding(raw, "@lid");
    if raw == bare + "@c.us" {
      assert raw[|raw| - 5..] == "@c.us" && raw[..|raw| - 5] == bare;
    } else {
      NotEnding(raw, "@c.us");
    }
  }

  lemma NotEnding(s: string, suffix: string)
    requires forall p :: s != p + suffix
    ensures !HasSuffix(s, suffix)
  {
    if HasSuffix(s, suffix) {
      EndsIn(s, suffix);
    }
  }

  /** A number that parses as a recipient parses to a stable one: parsing the user part again, under
      any country code, gives the same recipient. */
  lemma ParsedNumberIsStable(input: string, cc: string, other: string, lib: string -> JidResult)
    requires AllDigits(cc) && !IsAddress(Trim(input)) && ParseJid(input, cc, lib).Parsed?
    ensures ParseJid(ParseJid(input, cc, lib).jid.user, other, lib) == ParseJid(input, cc, lib)
  {
    var raw := Trim(input);
    var bare := if HasSuffix(raw, "@c.us") then raw[..|raw| - 5] else raw;
    var n := Normalize(bare, cc).number;
    NormalForm(bare, cc);
    TrimAllDigits(n);
    Idempotent(bare, cc, other);
    assert !IsDigit('s') && !IsDigit('t') && !IsDigit('r') && !IsDigit('d');
    NoSuffix(n, "@g.us");
    NoSuffix(n, "@s.whatsapp.net");
    NoSuffix(n, "@newsletter");
    NoSuffix(n, "@lid");
    NoSuffix(n, "@c.us");
  }

  lemma TrimAllDigits(n: string)
    requires AllDigits(n) && n != ""
    ensures Trim(n) == n
  {
    assert !IsSpace(n[0]) && !IsSpace(n[|n| - 1]);
  }

  lemma NoSuffix(n: string, suffix: string)
    requires AllDigits(n) && suffix != "" && !IsDigit(suffix[0])
    ensures !HasSuffix(n, suffix)
  {
    if |suffix| <= |n| {
      assert n[|n| - |suffix|..][0] == n[|n| - |suffix|];
    }
  }
}
