/** The message template: a leftmost, non-overlapping scan for {{ key }} placeholders. */
module Template {
  /** The characters of the class \s. */
  predicate IsSpace(c: char) {
    c == ' ' || c == '\t' || c == '\n' || c == '\r' || c == '\U{000C}'
  }

  predicate IsKeyChar(c: char) {
    'a' <= c <= 'z' || 'A' <= c <= 'Z' || '0' <= c <= '9' || c == '_'
  }

  predicate AllSpace(s: string) {
    forall i :: 0 <= i < |s| ==> IsSpace(s[i])
  }

  predicate AllKey(s: string) {
    forall i :: 0 <= i < |s| ==> IsKeyChar(s[i])
  }

  /** What the pattern matches: two braces, spaces, a nonempty key, spaces, two braces. */
  ghost predicate IsPlaceholder(src: string, key: string) {
    exists before, after :: PlaceholderParts(src, before, key, after)
  }

  ghost predicate PlaceholderParts(src: string, before: string, key: string, after: string) {
    src == "{{" + before + key + after + "}}" && AllSpace(before) && AllSpace(after) && key != "" && AllKey(key)
  }

  /** The number of leading space characters. */
  function SpaceRun(s: string): (n: nat)
    ensures n <= |s| && AllSpace(s[..n]) && (n < |s| ==> !IsSpace(s[n]))
  {
    if s == "" || !IsSpace(s[0]) then 0 else
      var n := 1 + SpaceRun(s[1..]);
      assert forall i :: 0 < i < n ==> s[i] == s[1..][i - 1];
      n
  }

  /** The number of leading key characters. */
  function KeyRun(s: string): (n: nat)
    ensures n <= |s| && AllKey(s[..n]) && (n < |s| ==> !IsKeyChar(s[n]))
  {
    if s == "" || !IsKeyChar(s[0]) then 0 else
      var n := 1 + KeyRun(s[1..]);
      assert forall i :: 0 < i < n ==> s[i] == s[1..][i - 1];
      n
  }

  datatype Match = NoMatch | Match(len: nat, key: string)

  /** Length of the closing part, spaces and two braces; 0 when it is not there. */
  function CloseLen(s: string): (n: nat)
    ensures n <= |s|
  {
    var b := SpaceRun(s);
    if "}}" <= s[b..] then b + 2 else 0
  }

  /** The pattern after its two opening braces. */
  function MatchBody(s: string): (m: Match)
    ensures m.Match? ==> 2 < m.len <= |s|
  {
    var a := SpaceRun(s);
    var n := KeyRun(s[a..]);
    var c := CloseLen(s[a..][n..]);
    if n == 0 || c == 0 then NoMatch else Match(a + n + c, s[a..][..n])
  }

  /** The pattern anchored at the start of s. */
  function MatchHere(s: string): (m: Match)
    ensures m.Match? ==> 4 < m.len <= |s|
  {
    if !("{{" <= s) then NoMatch else
      var m := MatchBody(s[2..]);
      if m.NoMatch? then NoMatch else Match(2 + m.len, m.key)
  }

  lemma SpaceRunExact(a: string, b: string)
    requires AllSpace(a) && (b != "" ==> !IsSpace(b[0]))
    ensures SpaceRun(a + b) == |a|
  {
    if a != "" {
      assert (a + b)[1..] == a[1..] + b;
      SpaceRunExact(a[1..], b);
    }
  }

  lemma KeyRunExact(a: string, b: string)
    requires AllKey(a) && (b != "" ==> !IsKeyChar(b[0]))
    ensures KeyRun(a + b) == |a|
  {
    if a != "" {
      assert (a + b)[1..] == a[1..] + b;
      KeyRunExact(a[1..], b);
    }
  }

  lemma CloseExact(after: string, rest: string)
    requires AllSpace(after)
    ensures CloseLen(after + ("}}" + rest)) == |after| + 2
  {
    SpaceRunExact(after, "}}" + rest);
    assert (after + ("}}" + rest))[|after|..] == "}}" + rest;
  }

  lemma BodyExact(before: string, key: string, tail: string)
    requires AllSpace(before) && key != "" && AllKey(key)
    requires CloseLen(tail) > 0 && !IsKeyChar(tail[0])
    ensures MatchBody(before + (key + tail)) == Match(|before| + |key| + CloseLen(tail), key)
  {
    var s := before + (key + tail);
    assert (key + tail)[0] == key[0];
    SpaceRunExact(before, key + tail);
    assert s[|before|..] == key + tail;
    KeyRunExact(key, tail);
    assert (key + tail)[|key|..] == tail && (key + tail)[..|key|] == key;
  }

  lemma Regroup(a: string, b: string, c: string, d: string, e: string, f: string)
    ensures (a + b + c + d + e) + f == a + (b + (c + (d + (e + f))))
  {
  }

  lemma MatchAssembled(before: string, key: string, after: string, rest: string)
    requires AllSpace(before) && AllSpace(after) && key != "" && AllKey(key)
    ensures MatchHere("{{" + (before + (key + (after + ("}}" + rest))))) == Match(4 + |before| + |key| + |after|, key)
  {
    CloseExact(after, rest);
    ClosingHead(after, rest);
    BodyExact(before, key, after + ("}}" + rest));
    AfterBraces(before + (key + (after + ("}}" + rest))));
  }

  lemma ClosingHead(after: string, rest: string)
    requires AllSpace(after)
    ensures |after + ("}}" + rest)| > 0 && !IsKeyChar((after + ("}}" + rest))[0])
  {
  }

  lemma AfterBraces(body: string)
    requires MatchBody(body).Match?
    ensures MatchHere("{{" + body) == Match(2 + MatchBody(body).len, MatchBody(body).key)
  {
    assert ("{{" + body)[2..] == body;
  }

  lemma PlaceholderLaidOut(src: string, before: string, key: string, after: string, rest: string)
    requires PlaceholderParts(src, before, key, after)
    ensures src + rest == "{{" + (before + (key + (after + ("}}" + rest))))
    ensures |src| == 4 + |before| + |key| + |after|
  {
    Regroup("{{", before, key, after, "}}", rest);
  }

  lemma PrefixRest(src: string, s: string)
    requires src <= s
    ensures s == src + s[|src|..]
  {
  }

  /** A placeholder at the start of s is found, with its own key and length. */
  lemma MatchComplete(s: string, src: string, key: string)
    requires src <= s && IsPlaceholder(src, key)
    ensures MatchHere(s) == Match(|src|, key)
  {
    var before, after :| PlaceholderParts(src, before, key, after);
    var rest := s[|src|..];
    PrefixRest(src, s);
    PlaceholderLaidOut(src, before, key, after, rest);
    MatchAssembled(before, key, after, rest);
  }

  lemma CloseSound(s: string)
    requires CloseLen(s) > 0
    ensures s[..CloseLen(s)] == s[..SpaceRun(s)] + "}}"
  {
    var b := SpaceRun(s);
    assert s[b..][..2] == "}}";
  }

  lemma TakeAcross(s: string, i: nat, n: nat)
    requires i + n <= |s|
    ensures s[..i + n] == s[..i] + s[i..][..n]
  {
  }

  ghost predicate BodyParts(src: string, before: string, key: string, after: string) {
    src == before + (key + (after + "}}")) && AllSpace(before) && AllSpace(after) && key != "" && AllKey(key)
  }

  lemma KeyAndClose(u: string)
    requires CloseLen(u[KeyRun(u)..]) > 0
    ensures var n := KeyRun(u); var v := u[n..];
      u[..n + CloseLen(v)] == u[..n] + (v[..SpaceRun(v)] + "}}") && AllSpace(v[..SpaceRun(v)])
  {
    var n := KeyRun(u);
    CloseSound(u[n..]);
    TakeAcross(u, n, CloseLen(u[n..]));
  }

  lemma BodyFromParts(src: string, before: string, mid: string, key: string, after: string)
    requires src == before + mid && mid == key + (after + "}}")
    requires AllSpace(before) && AllSpace(after) && key != "" && AllKey(key)
    ensures BodyParts(src, before, key, after)
  {
  }

  lemma BodySound(s: string) returns (before: string, after: string)
    requires MatchBody(s).Match?
    ensures BodyParts(s[..MatchBody(s).len], before, MatchBody(s).key, after)
  {
    var a := SpaceRun(s);
    var u := s[a..];
    var v := u[KeyRun(u)..];
    var n := KeyRun(u) + CloseLen(v);
    before, after := s[..a], v[..SpaceRun(v)];
    KeyAndClose(u);
    TakeAcross(s, a, n);
    assert MatchBody(s) == Match(a + n, u[..KeyRun(u)]);
    BodyFromParts(s[..a + n], before, u[..n], u[..KeyRun(u)], after);
  }

  lemma FlattenParts(src: string, before: string, key: string, after: string)
    requires src == "{{" + (before + (key + (after + "}}")))
    ensures src == "{{" + before + key + after + "}}"
  {
  }

  /** Whatever is matched is a placeholder. */
  lemma MatchSound(s: string)
    requires MatchHere(s).Match?
    ensures IsPlaceholder(s[..MatchHere(s).len], MatchHere(s).key)
  {
    var t := s[2..];
    var before, after := BodySound(t);
    var m := MatchBody(t);
    TakeAcross(s, 2, m.len);
    assert s[..2] == "{{";
    FlattenParts(s[..2 + m.len], before, m.key, after);
    assert PlaceholderParts(s[..2 + m.len], before, m.key, after);
  }

  /** At one position at most one placeholder begins. */
  lemma MatchUnique(s: string, src: string, key: string, src': string, key': string)
    requires src <= s && src' <= s && IsPlaceholder(src, key) && IsPlaceholder(src', key')
    ensures src == src' && key == key'
  {
    MatchComplete(s, src, key);
    MatchComplete(s, src', key');
  }

  datatype Segment = Literal(c: char) | Hole(src: string, key: string)

  /** Scan from the left, taking a placeholder wherever one begins. */
  function Split(s: string): seq<Segment>
    decreases |s|
  {
    if s == "" then [] else
      var m := MatchHere(s);
      if m.Match? then [Hole(s[..m.len], m.key)] + Split(s[m.len..]) else [Literal(s[0])] + Split(s[1..])
  }

  function Source(seg: Segment): string {
    match seg case Literal(c) => [c] case Hole(src, _) => src
  }

  function Value(seg: Segment, vars: map<string, string>): string {
    match seg case Literal(c) => [c] case Hole(src, key) => if key in vars then vars[key] else src
  }

  function Print(segs: seq<Segment>): string {
    if segs == [] then "" else Source(segs[0]) + Print(segs[1..])
  }

  function Fill(segs: seq<Segment>, vars: map<string, string>): string {
    if segs == [] then "" else Value(segs[0], vars) + Fill(segs[1..], vars)
  }

  /** The rendering of a template; the source leaves early when there is nothing to replace. */
  function RenderTemplate(tmpl: string, vars: map<string, string>): string {
    if tmpl == "" || |vars| == 0 then tmpl else Fill(Split(tmpl), vars)
  }

  ghost predicate NoneBegins(s: string) {
    forall src, key :: IsPlaceholder(src, key) ==> !(src <= s)
  }

  /** Segments that print to s, every hole a placeholder, no placeholder beginning at a literal. */
  ghost predicate LeftmostSplit(segs: seq<Segment>, s: string) {
    if segs == [] then s == "" else
      && Source(segs[0]) <= s
      && (match segs[0]
          case Literal(_) => NoneBegins(s)
          case Hole(src, key) => IsPlaceholder(src, key))
      && LeftmostSplit(segs[1..], s[|Source(segs[0])|..])
  }

  /** Splitting and printing gives the template back. */
  lemma {:induction false} SplitPrint(s: string)
    ensures Print(Split(s)) == s
    decreases |s|
  {
    if s != "" {
      var m := MatchHere(s);
      var n := if m.Match? then m.len else 1;
      SplitPrint(s[n..]);
      assert s == s[..n] + s[n..];
    }
  }

  lemma NoMatchMeansNone(s: string)
    requires MatchHere(s).NoMatch?
    ensures NoneBegins(s)
  {
    forall src, key | IsPlaceholder(src, key) ensures !(src <= s) {
      if src <= s {
        MatchComplete(s, src, key);
      }
    }
  }

  lemma {:induction false} SplitIsLeftmost(s: string)
    ensures LeftmostSplit(Split(s), s)
    decreases |s|
  {
    if s != "" {
      var m := MatchHere(s);
      if m.Match? {
        MatchSound(s);
        SplitIsLeftmost(s[m.len..]);
      } else {
        NoMatchMeansNone(s);
        SplitIsLeftmost(s[1..]);
      }
    }
  }

  lemma NothingBegins(s: string)
    requires NoneBegins(s)
    ensures MatchHere(s).NoMatch?
  {
    if MatchHere(s).Match? {
      MatchSound(s);
    }
  }

  lemma SplitLiteral(s: string, c: char)
    requires NoneBegins(s) && [c] <= s
    ensures Split(s) == [Literal(c)] + Split(s[1..])
  {
    NothingBegins(s);
  }

  lemma SplitAtMatch(s: string)
    requires MatchHere(s).Match?
    ensures Split(s) == [Hole(s[..MatchHere(s).len], MatchHere(s).key)] + Split(s[MatchHere(s).len..])
  {
  }

  lemma PrefixIsTake(src: string, s: string)
    requires src <= s
    ensures s[..|src|] == src
  {
  }

  lemma SplitHole(s: string, src: string, key: string)
    requires src <= s && IsPlaceholder(src, key)
    ensures Split(s) == [Hole(src, key)] + Split(s[|src|..])
  {
    MatchComplete(s, src, key);
    SplitAtMatch(s);
    PrefixIsTake(src, s);
  }

  /** There is only one leftmost, non-overlapping split. */
  lemma {:induction false} SplitUnique(segs: seq<Segment>, s: string)
    requires LeftmostSplit(segs, s)
    ensures segs == Split(s)
    decreases |segs|
  {
    if segs != [] {
      var rest := s[|Source(segs[0])|..];
      SplitUnique(segs[1..], rest);
      if segs[0].Literal? {
        SplitLiteral(s, segs[0].c);
      } else {
        SplitHole(s, segs[0].src, segs[0].key);
      }
      assert segs == [segs[0]] + segs[1..];
    }
  }

  lemma {:induction false} FillWithNothing(segs: seq<Segment>)
    ensures Fill(segs, map[]) == Print(segs)
  {
    if segs != [] {
      FillWithNothing(segs[1..]);
    }
  }

  lemma RenderIsFill(tmpl: string, vars: map<string, string>, segs: seq<Segment>)
    requires LeftmostSplit(segs, tmpl)
    ensures RenderTemplate(tmpl, vars) == Fill(segs, vars)
  {
    SplitUnique(segs, tmpl);
    if |vars| == 0 {
      assert vars == map[];
      FillWithNothing(segs);
      SplitPrint(tmpl);
    }
  }

  /** The pieces one after another. */
  function Joined(pieces: seq<string>): string {
    if pieces == [] then "" else pieces[0] + Joined(pieces[1..])
  }

  /** What one segment becomes: a character itself, a known key its value, an unknown key its own text. */
  ghost predicate IsPiece(piece: string, seg: Segment, vars: map<string, string>) {
    match seg
    case Literal(c) => piece == [c]
    case Hole(src, key) => (key in vars ==> piece == vars[key]) && (key !in vars ==> piece == src)
  }

  lemma {:induction false} FillPieces(segs: seq<Segment>, vars: map<string, string>) returns (pieces: seq<string>)
    ensures |pieces| == |segs| && Joined(pieces) == Fill(segs, vars)
    ensures forall i :: 0 <= i < |segs| ==> IsPiece(pieces[i], segs[i], vars)
  {
    pieces := [];
    if segs != [] {
      var rest := FillPieces(segs[1..], vars);
      pieces := [Value(segs[0], vars)] + rest;
      forall i | 0 <= i < |segs| ensures IsPiece(pieces[i], segs[i], vars) {
        if i > 0 {
          assert segs[i] == segs[1..][i - 1] && pieces[i] == rest[i - 1];
        }
      }
    }
  }

  /** Rendering is one leftmost pass: however the template is split into literals and placeholders, the
      result is one piece for each segment in order, where a placeholder with a known key is exactly that
      value and anything else its own text; so inserted values are never expanded again. */
  lemma RenderIsOnePass(tmpl: string, vars: map<string, string>, segs: seq<Segment>) returns (pieces: seq<string>)
    requires LeftmostSplit(segs, tmpl)
    ensures |pieces| == |segs| && RenderTemplate(tmpl, vars) == Joined(pieces)
    ensures forall i :: 0 <= i < |segs| ==>
      match segs[i]
      case Literal(c) => pieces[i] == [c]
      case Hole(src, key) => pieces[i] == if key in vars then vars[key] else src
  {
    RenderIsFill(tmpl, vars, segs);
    pieces := FillPieces(segs, vars);
    forall i | 0 <= i < |segs|
      ensures match segs[i]
              case Literal(c) => pieces[i] == [c]
              case Hole(src, key) => pieces[i] == if key in vars then vars[key] else src
    {
      assert IsPiece(pieces[i], segs[i], vars);
    }
  }

  /** Reading the key by matching the placeholder's own text again finds the same key. */
  lemma RematchFindsKey(src: string, key: string)
    requires IsPlaceholder(src, key)
    ensures MatchHere(src) == Match(|src|, key)
  {
    MatchComplete(src, src, key);
  }

  lemma {:induction false} FillUnknown(segs: seq<Segment>, vars: map<string, string>)
    requires forall i :: 0 <= i < |segs| && segs[i].Hole? ==> segs[i].key !in vars
    ensures Fill(segs, vars) == Print(segs)
  {
    if segs != [] {
      assert forall i :: 0 <= i < |segs[1..]| ==> segs[1..][i] == segs[i + 1];
      FillUnknown(segs[1..], vars);
    }
  }

  /** A template whose placeholders all have unknown keys renders to itself. */
  lemma UnknownKeysStay(tmpl: string, vars: map<string, string>, segs: seq<Segment>)
    requires LeftmostSplit(segs, tmpl)
    requires forall i :: 0 <= i < |segs| && segs[i].Hole? ==> segs[i].key !in vars
    ensures RenderTemplate(tmpl, vars) == tmpl
  {
    RenderIsFill(tmpl, vars, segs);
    FillUnknown(segs, vars);
    SplitUnique(segs, tmpl);
    SplitPrint(tmpl);
  }
}
