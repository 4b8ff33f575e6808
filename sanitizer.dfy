/**
 * `sanitizeContent` of the text robot: the raw article text is cut into lines, blank
 * lines and `=`-headings are dropped and the rest joined with spaces; then
 * parenthesised asides (at most one level of nesting) are deleted and each pair of
 * spaces is replaced by one.
 */
module Sanitizer {
  import opened Wrappers
  import opened Seqs
  import opened JsString

  // ---------------------------------------------------------------------------
  // Blank lines and markdown headings
  // ---------------------------------------------------------------------------

  /** The filter test applied to one line: its trimmed form is neither empty nor starts with `=`. */
  predicate KeepLine(line: string) {
    !(|Trim(line)| == 0 || Trim(line)[0] == '=')
  }

  /** A line is kept exactly when it has a visible character and the first one is not `=`. */
  lemma KeepLineFirstVisible(line: string)
    ensures KeepLine(line) <==>
            FirstVisible(line, 0) < |line| && line[FirstVisible(line, 0)] != '='
  {
    var n := FirstVisible(line, 0);
    if n < |line| {
      assert !AllWhiteSpace(line);
    }
  }

  /** `allLines.filter(...)`: the lines that pass, in their original order. */
  function KeptLines(lines: seq<string>): (r: seq<string>)
    ensures IsSubsequence(r, lines)
    ensures forall k :: 0 <= k < |r| ==> KeepLine(r[k])
    ensures forall x :: x in lines && KeepLine(x) ==> x in r
    decreases |lines|
  {
    if lines == [] then []
    else
      var rest := KeptLines(lines[1..]);
      assert [lines[0]] + lines[1..] == lines;
      if KeepLine(lines[0]) then
        SubsequenceCons(lines[0], rest, lines[1..]);
        var r := [lines[0]] + rest;
        assert forall k :: 0 <= k < |r| ==> KeepLine(r[k]) by {
          forall k | 0 <= k < |r| ensures KeepLine(r[k]) {
            if k > 0 { assert r[k] == rest[k - 1]; }
          }
        }
        r
      else
        SubsequenceOfLonger(rest, [lines[0]], lines[1..]);
        rest
  }

  /** A single line survives the filter exactly when it passes the test. */
  lemma KeptLinesSingle(line: string)
    ensures KeptLines([line]) == (if KeepLine(line) then [line] else [])
  {
    assert [line][1..] == [];
  }

  /** Filtering a concatenation filters each part: the filter decides line by line. */
  lemma {:induction false} KeptLinesAppend(a: seq<string>, b: seq<string>)
    ensures KeptLines(a + b) == KeptLines(a) + KeptLines(b)
    decreases |a|
  {
    if a == [] {
      assert a + b == b;
    } else {
      var ab := a + b;
      assert ab[0] == a[0] && ab[1..] == a[1..] + b;
      KeptLinesAppend(a[1..], b);
    }
  }

  /** `removeBlackLinesAndMarkdown`: the surviving lines, untrimmed, joined with single spaces. */
  function RemoveBlankLinesAndMarkdown(text: string): string {
    Join(KeptLines(Split(text, '\n')), " ")
  }

  /** Every line is blank or a heading. */
  predicate NoLineKept(lines: seq<string>) {
    forall k :: 0 <= k < |lines| ==> !KeepLine(lines[k])
  }

  /** No line survives exactly when the filter keeps nothing. */
  lemma KeptLinesEmpty(lines: seq<string>)
    ensures KeptLines(lines) == [] <==> NoLineKept(lines)
  {
    var kept := KeptLines(lines);
    if kept != [] {
      SubsequenceMembers(kept, lines, kept[0]);
    }
    if k :| 0 <= k < |lines| && KeepLine(lines[k]) {
      assert lines[k] in lines;
    }
  }

  /** The filtered text holds no line break: the lines hold none and they are joined with spaces. */
  lemma FilteredHasNoLineBreak(text: string)
    ensures '\n' !in RemoveBlankLinesAndMarkdown(text)
  {
    var lines := Split(text, '\n');
    var kept := KeptLines(lines);
    forall k | 0 <= k < |kept|
      ensures '\n' !in kept[k]
    {
      SubsequenceMembers(kept, lines, kept[k]);
    }
    JoinExcludes(kept, " ", '\n');
  }

  /** A kept line is never empty: its trimmed form has a character. */
  lemma KeepLineNonEmpty(line: string)
    requires KeepLine(line)
    ensures line != ""
  {
  }

  lemma JoinedKeptEmpty(kept: seq<string>)
    requires forall k :: 0 <= k < |kept| ==> KeepLine(kept[k])
    ensures Join(kept, " ") == "" <==> kept == []
  {
    JoinEmpty(kept, " ");
    if kept != [] {
      KeepLineNonEmpty(kept[0]);
    }
  }

  lemma JoinKeptLinesEmpty(lines: seq<string>)
    ensures Join(KeptLines(lines), " ") == "" <==> NoLineKept(lines)
  {
    JoinedKeptEmpty(KeptLines(lines));
    KeptLinesEmpty(lines);
  }

  /** The filtered text is empty exactly when no line of the input survives the filter. */
  lemma FilteredEmpty(text: string)
    ensures RemoveBlankLinesAndMarkdown(text) == "" <==> NoLineKept(Split(text, '\n'))
  {
    JoinKeptLinesEmpty(Split(text, '\n'));
  }

  // ---------------------------------------------------------------------------
  // Parenthesised spans: the pattern \((?:\([^()]*\)|[^()])*\)
  // ---------------------------------------------------------------------------

  predicate IsParen(c: char) {
    c == '(' || c == ')'
  }

  /** No character of `s` is a parenthesis (the class `[^()]*`). */
  predicate ParenFree(s: string)
    decreases |s|
  {
    s == [] || (!IsParen(s[0]) && ParenFree(s[1..]))
  }

  /**
   * The inner alternative `\([^()]*\)` once its `(` has been read: non-parenthesis
   * characters, then `)`. Gives how many characters of `t` that takes, the `)`
   * included, or None when a `(` or the end of the text comes first.
   */
  function InnerLength(t: string): (r: Option<nat>)
    ensures r.Some? ==> 0 < r.value <= |t|
    decreases |t|
  {
    if t == [] then None
    else if t[0] == ')' then Some(1)
    else if t[0] == '(' then None
    else
      match InnerLength(t[1..])
      case None => None
      case Some(n) => Some(n + 1)
  }

  /**
   * One repetition of the group `(?:\([^()]*\)|[^()])` at the start of `t`: a
   * paren-free inner group or one character other than a parenthesis. Gives its
   * length, or None when `t` is empty, starts with `)`, or opens an inner group
   * that meets `(` or the end of the text before its `)`.
   */
  function StepLength(t: string): (r: Option<nat>)
    ensures r.Some? ==> 0 < r.value <= |t|
  {
    if t == [] || t[0] == ')' then None
    else if t[0] == '(' then
      match InnerLength(t[1..])
      case None => None
      case Some(n) => Some(1 + n)
    else Some(1)
  }

  /**
   * The body `(?:\([^()]*\)|[^()])*\)` of a span whose `(` has been read: steps
   * until the closing `)`. Gives how many characters of `t` that takes, or None
   * when the span cannot be closed.
   */
  function BodyLength(t: string): (r: Option<nat>)
    ensures r.Some? ==> 0 < r.value <= |t|
    decreases |t|
  {
    if t == [] then None
    else if t[0] == ')' then Some(1)
    else
      match StepLength(t)
      case None => None
      case Some(k) =>
        match BodyLength(t[k..])
        case None => None
        case Some(m) => Some(k + m)
  }

  /** The end of the span that the pattern matches at position `i`, if it matches there. */
  function MatchAt(s: string, i: nat): (r: Option<nat>)
    requires i < |s|
    ensures r.Some? ==> i < r.value <= |s|
  {
    if s[i] != '(' then None
    else
      match BodyLength(s[i + 1..])
      case None => None
      case Some(n) => Some(i + 1 + n)
  }

  /** One step of a span's body, read as a grammar: a plain character or a paren-free inner group. */
  datatype Piece = Plain(c: char) | Nested(inner: string)

  predicate ValidPiece(p: Piece) {
    match p
    case Plain(c) => !IsParen(c)
    case Nested(inner) => ParenFree(inner)
  }

  predicate ValidPieces(ps: seq<Piece>)
    decreases |ps|
  {
    ps == [] || (ValidPiece(ps[0]) && ValidPieces(ps[1..]))
  }

  function PieceText(p: Piece): string {
    match p
    case Plain(c) => [c]
    case Nested(inner) => ['('] + inner + [')']
  }

  function Flatten(ps: seq<Piece>): string
    decreases |ps|
  {
    if ps == [] then [] else PieceText(ps[0]) + Flatten(ps[1..])
  }

  lemma FlattenCons(p: Piece, ps: seq<Piece>)
    ensures Flatten([p] + ps) == PieceText(p) + Flatten(ps)
    ensures ValidPieces([p] + ps) <==> ValidPiece(p) && ValidPieces(ps)
  {
    assert ([p] + ps)[1..] == ps;
  }

  /** `t` is one span the pattern describes: `(`, any valid pieces, `)`. */
  ghost predicate IsSpan(t: string) {
    exists ps :: ValidPieces(ps) && t == ['('] + Flatten(ps) + [')']
  }

  // Completeness: every span is found, with its exact end.

  lemma {:induction false} InnerLengthFinds(t: string, inner: string)
    requires ParenFree(inner) && |inner| < |t| && t[..|inner|] == inner && t[|inner|] == ')'
    ensures InnerLength(t) == Some(|inner| + 1)
    decreases |inner|
  {
    if inner != [] {
      assert t[0] == inner[0];
      assert t[1..][..|inner| - 1] == inner[1..];
      InnerLengthFinds(t[1..], inner[1..]);
    }
  }

  lemma NestedPrefix(t: string, inner: string)
    requires |inner| + 2 <= |t| && t[..|inner| + 2] == ['('] + inner + [')']
    ensures t[0] == '(' && t[1..][..|inner|] == inner && t[1..][|inner|] == ')'
  {
    assert t[0] == t[..|inner| + 2][0];
    assert t[1..][..|inner|] == t[..|inner| + 2][1..|inner| + 1];
    assert t[1..][|inner|] == t[..|inner| + 2][|inner| + 1];
  }

  /** A valid piece at the start of the text is read as one step of exactly its length. */
  lemma StepLengthFinds(t: string, p: Piece)
    requires ValidPiece(p) && |PieceText(p)| <= |t| && t[..|PieceText(p)|] == PieceText(p)
    ensures StepLength(t) == Some(|PieceText(p)|)
  {
    if p.Plain? {
      assert t[0] == t[..1][0];
    } else {
      NestedPrefix(t, p.inner);
      InnerLengthFinds(t[1..], p.inner);
    }
  }

  lemma BodyAfterStep(t: string, k: nat, v: string, n: nat)
    requires StepLength(t) == Some(k) && t[k..] == v && BodyLength(v) == Some(n)
    ensures BodyLength(t) == Some(k + n)
  {
  }

  lemma FlattenSplit(ps: seq<Piece>)
    requires ps != [] && ValidPieces(ps)
    ensures ValidPiece(ps[0]) && ValidPieces(ps[1..])
    ensures Flatten(ps) == PieceText(ps[0]) + Flatten(ps[1..])
  {
  }

  /** `t` starts with the texts of `ps`, one after the other, and then `)`. */
  ghost predicate SpellsPieces(t: string, ps: seq<Piece>)
    decreases |ps|
  {
    if ps == [] then |t| > 0 && t[0] == ')'
    else
      var k := |PieceText(ps[0])|;
      k <= |t| && t[..k] == PieceText(ps[0]) && SpellsPieces(t[k..], ps[1..])
  }

  lemma {:induction false} BodyLengthSpells(t: string, ps: seq<Piece>)
    requires ValidPieces(ps) && SpellsPieces(t, ps)
    ensures BodyLength(t) == Some(|Flatten(ps)| + 1)
    decreases |ps|
  {
    if ps != [] {
      var k := |PieceText(ps[0])|;
      FlattenSplit(ps);
      BodyLengthSpells(t[k..], ps[1..]);
      StepLengthFinds(t, ps[0]);
      BodyAfterStep(t, k, t[k..], |Flatten(ps[1..])| + 1);
    }
  }

  lemma ConcatRegroup(t: string, a: string, b: string, u: string, v: string)
    requires t == a + b + [')'] + u && v == b + [')'] + u
    ensures t == a + v
  {
  }

  lemma ConcatParts(t: string, a: string, b: string)
    requires t == a + b
    ensures |a| <= |t| && t[..|a|] == a && t[|a|..] == b
  {
  }

  lemma {:induction false} SpellsConcat(t: string, ps: seq<Piece>, u: string)
    requires t == Flatten(ps) + [')'] + u
    ensures SpellsPieces(t, ps)
    decreases |ps|
  {
    if ps != [] {
      var v := Flatten(ps[1..]) + [')'] + u;
      assert Flatten(ps) == PieceText(ps[0]) + Flatten(ps[1..]);
      ConcatRegroup(t, PieceText(ps[0]), Flatten(ps[1..]), u, v);
      ConcatParts(t, PieceText(ps[0]), v);
      SpellsConcat(v, ps[1..], u);
    }
  }

  /** Valid pieces followed by `)` are read to exactly that `)`. */
  lemma BodyLengthFinds(t: string, ps: seq<Piece>, u: string)
    requires ValidPieces(ps) && t == Flatten(ps) + [')'] + u
    ensures BodyLength(t) == Some(|Flatten(ps)| + 1)
  {
    SpellsConcat(t, ps, u);
    BodyLengthSpells(t, ps);
  }

  lemma SpanSlice(s: string, i: nat, e: nat, f: string)
    requires i < e <= |s| && s[i..e] == ['('] + f + [')']
    ensures s[i] == '(' && e == i + 2 + |f| && s[i + 1..] == f + [')'] + s[e..]
  {
    assert s[i] == s[i..e][0];
    assert s[i + 1..e] == f + [')'];
    assert s[i + 1..] == s[i + 1..e] + s[e..];
  }

  lemma MatchAtPieces(s: string, i: nat, e: nat, ps: seq<Piece>)
    requires i < e <= |s| && ValidPieces(ps) && s[i..e] == ['('] + Flatten(ps) + [')']
    ensures MatchAt(s, i) == Some(e)
  {
    SpanSlice(s, i, e, Flatten(ps));
    BodyLengthFinds(s[i + 1..], ps, s[e..]);
  }

  lemma MatchAtComplete(s: string, i: nat, e: nat)
    requires i < e <= |s| && IsSpan(s[i..e])
    ensures MatchAt(s, i) == Some(e)
  {
    var ps :| ValidPieces(ps) && s[i..e] == ['('] + Flatten(ps) + [')'];
    MatchAtPieces(s, i, e, ps);
  }

  // Soundness: what the scanner reads is a span.

  lemma ParenFreeCons(c: char, s: string)
    ensures ParenFree([c] + s) <==> !IsParen(c) && ParenFree(s)
  {
    assert ([c] + s)[1..] == s;
  }

  /** An inner group read by the scanner: paren-free characters, then `)`. */
  lemma {:induction false} InnerLengthSound(t: string)
    requires InnerLength(t).Some?
    ensures var n := InnerLength(t).value;
            ParenFree(t[..n - 1]) && t[n - 1] == ')'
    decreases |t|
  {
    var n := InnerLength(t).value;
    if t[0] != ')' {
      InnerLengthSound(t[1..]);
      assert t[..n - 1] == [t[0]] + t[1..][..n - 2];
      ParenFreeCons(t[0], t[1..][..n - 2]);
    }
  }

  /** The piece the scanner reads in one step. */
  ghost function StepPiece(t: string): Piece
    requires StepLength(t).Some?
  {
    if t[0] == '(' then Nested(t[1..StepLength(t).value - 1]) else Plain(t[0])
  }

  lemma GroupSlices(t: string, n: nat)
    requires 0 < n < |t|
    ensures t[1..][..n - 1] == t[1..n] && t[1..][n - 1] == t[n]
    ensures t[..n + 1] == ['('] + t[1..n] + [')'] <== t[0] == '(' && t[n] == ')'
  {
  }

  /** What one step reads is a valid piece, and its text is what was read. */
  lemma StepLengthSound(t: string)
    requires StepLength(t).Some?
    ensures ValidPiece(StepPiece(t)) && t[..StepLength(t).value] == PieceText(StepPiece(t))
  {
    if t[0] == '(' {
      var n := InnerLength(t[1..]).value;
      InnerLengthSound(t[1..]);
      GroupSlices(t, n);
    }
  }

  /** The pieces the scanner reads in a span's body. */
  ghost function BodyPieces(t: string): seq<Piece>
    requires BodyLength(t).Some?
    decreases |t|
  {
    if t[0] == ')' then []
    else [StepPiece(t)] + BodyPieces(t[StepLength(t).value..])
  }

  lemma StepSlices(t: string, k: nat, m: nat)
    requires 0 < k && 0 < m && k + m <= |t|
    ensures t[..k + m - 1] == t[..k] + t[k..][..m - 1] && t[k + m - 1] == t[k..][m - 1]
  {
  }

  lemma PiecesJoin(t: string, k: nat, m: nat, p: Piece, ps: seq<Piece>)
    requires 0 < k && 0 < m && k + m <= |t|
    requires ValidPiece(p) && t[..k] == PieceText(p)
    requires ValidPieces(ps) && t[k..][..m - 1] == Flatten(ps) && t[k..][m - 1] == ')'
    ensures ValidPieces([p] + ps) && t[..k + m - 1] == Flatten([p] + ps) && t[k + m - 1] == ')'
  {
    StepSlices(t, k, m);
    FlattenCons(p, ps);
  }

  /** What the scanner reads as a body is valid pieces and then `)`. */
  lemma {:induction false} BodyLengthSound(t: string)
    requires BodyLength(t).Some?
    ensures var n := BodyLength(t).value;
            ValidPieces(BodyPieces(t)) && t[..n - 1] == Flatten(BodyPieces(t)) && t[n - 1] == ')'
    decreases |t|
  {
    if t[0] != ')' {
      var k := StepLength(t).value;
      var u := t[k..];
      BodyLengthSound(u);
      StepLengthSound(t);
      PiecesJoin(t, k, BodyLength(u).value, StepPiece(t), BodyPieces(u));
    }
  }

  lemma GroupFromSlices(s: string, i: nat, e: nat, f: string)
    requires i + 1 < e <= |s| && s[i] == '('
    requires s[i + 1..][..e - i - 2] == f && s[i + 1..][e - i - 2] == ')'
    ensures s[i..e] == ['('] + f + [')']
  {
    assert s[i + 1..][..e - i - 2] == s[i + 1..e - 1];
    assert s[i..e] == [s[i]] + s[i + 1..e - 1] + [s[e - 1]];
  }

  lemma SpanFromSlices(s: string, i: nat, e: nat, ps: seq<Piece>)
    requires i + 1 < e <= |s| && s[i] == '(' && ValidPieces(ps)
    requires s[i + 1..][..e - i - 2] == Flatten(ps) && s[i + 1..][e - i - 2] == ')'
    ensures IsSpan(s[i..e])
  {
    GroupFromSlices(s, i, e, Flatten(ps));
  }

  lemma MatchAtSound(s: string, i: nat)
    requires i < |s| && MatchAt(s, i).Some?
    ensures IsSpan(s[i..MatchAt(s, i).value])
  {
    BodyLengthSound(s[i + 1..]);
    SpanFromSlices(s, i, MatchAt(s, i).value, BodyPieces(s[i + 1..]));
  }

  /** The pattern matches `s[i..e]` at position `i` exactly when that slice is a span. */
  lemma MatchAtSpan(s: string, i: nat, e: nat)
    requires i < |s|
    ensures MatchAt(s, i) == Some(e) <==> i < e <= |s| && IsSpan(s[i..e])
  {
    if MatchAt(s, i) == Some(e) {
      MatchAtSound(s, i);
    }
    if i < e <= |s| && IsSpan(s[i..e]) {
      MatchAtComplete(s, i, e);
    }
  }

  /** The scan of `.replace(pattern, "")` from position `i`: matched spans are skipped, other characters copied. */
  function RemoveSpansFrom(s: string, i: nat): (r: string)
    requires i <= |s|
    ensures IsSubsequence(r, s[i..])
    decreases |s| - i
  {
    if i == |s| then []
    else
      match MatchAt(s, i)
      case Some(e) =>
        var rest := RemoveSpansFrom(s, e);
        assert s[i..] == s[i..e] + s[e..];
        SubsequenceOfLonger(rest, s[i..e], s[e..]);
        rest
      case None =>
        var rest := RemoveSpansFrom(s, i + 1);
        assert s[i..] == [s[i]] + s[i + 1..];
        SubsequenceCons(s[i], rest, s[i + 1..]);
        [s[i]] + rest
  }

  /** `text.replace(/\((?:\([^()]*\)|[^()])*\)/gm, "")`. */
  function RemoveParenthesized(s: string): (r: string)
    ensures IsSubsequence(r, s) && |r| <= |s|
  {
    var r := RemoveSpansFrom(s, 0);
    assert s[0..] == s;
    SubsequenceLength(r, s);
    r
  }

  /**
   * Leftmost-first deletion: where a span starts, the scan resumes after it; where
   * none starts, the character is kept.
   */
  lemma RemoveSpansStep(s: string, i: nat)
    requires i < |s|
    ensures forall e :: i < e <= |s| && IsSpan(s[i..e]) ==> RemoveSpansFrom(s, i) == RemoveSpansFrom(s, e)
    ensures (forall e :: !(i < e <= |s| && IsSpan(s[i..e]))) ==> RemoveSpansFrom(s, i) == [s[i]] + RemoveSpansFrom(s, i + 1)
  {
    forall e | i < e <= |s| && IsSpan(s[i..e])
      ensures RemoveSpansFrom(s, i) == RemoveSpansFrom(s, e)
    {
      MatchAtSpan(s, i, e);
    }
    if MatchAt(s, i).Some? {
      MatchAtSpan(s, i, MatchAt(s, i).value);
    }
  }

  /** Without a `)` no span can close. */
  lemma {:induction false} NoCloseNoMatch(t: string)
    requires ')' !in t
    ensures BodyLength(t) == None && InnerLength(t) == None
    decreases |t|
  {
    if t != [] {
      assert t[0] in t;
      NoCloseNoMatch(t[1..]);
    }
  }

  /** Text without `)`, or without `(`, passes through unchanged. */
  lemma {:induction false} RemoveSpansUnmatched(s: string, i: nat)
    requires i <= |s|
    requires ')' !in s[i..] || '(' !in s[i..]
    ensures RemoveSpansFrom(s, i) == s[i..]
    decreases |s| - i
  {
    if i < |s| {
      assert s[i] == s[i..][0];
      assert s[i + 1..] == s[i..][1..];
      if ')' !in s[i..] {
        NoCloseNoMatch(s[i + 1..]);
      }
      assert MatchAt(s, i) == None;
      RemoveSpansUnmatched(s, i + 1);
    }
  }

  // ---------------------------------------------------------------------------
  // Double spaces: .replace(/  /g, " ")
  // ---------------------------------------------------------------------------

  /** Each non-overlapping pair of spaces, scanning left to right, becomes one space. */
  function CollapseDoubleSpaces(s: string): string
    decreases |s|
  {
    if |s| >= 2 && s[0] == ' ' && s[1] == ' ' then " " + CollapseDoubleSpaces(s[2..])
    else if s == [] then []
    else [s[0]] + CollapseDoubleSpaces(s[1..])
  }

  function Spaces(k: nat): (r: string)
    ensures |r| == k && forall m :: 0 <= m < k ==> r[m] == ' '
  {
    seq(k, _ => ' ')
  }

  /** The number of spaces `s` starts with. */
  function LeadingSpaces(s: string): (n: nat)
    ensures n <= |s| && s[..n] == Spaces(n) && (n == |s| || s[n] != ' ')
    decreases |s|
  {
    if s != [] && s[0] == ' ' then
      var n := 1 + LeadingSpaces(s[1..]);
      assert s[..n] == [' '] + s[1..][..n - 1];
      n
    else 0
  }

  /**
   * Reference definition by runs: a maximal run of k spaces becomes ceil(k/2)
   * spaces, every other character is copied.
   */
  function HalveSpaceRuns(s: string): string
    decreases |s|
  {
    if s == [] then []
    else if s[0] == ' ' then
      var k := LeadingSpaces(s);
      Spaces((k + 1) / 2) + HalveSpaceRuns(s[k..])
    else [s[0]] + HalveSpaceRuns(s[1..])
  }

  lemma SpacesParts(k: nat, t: string, s: string)
    requires k >= 2 && s == Spaces(k) + t
    ensures |s| >= 2 && s[0] == ' ' && s[1] == ' ' && s[2..] == Spaces(k - 2) + t
  {
    assert s[2..] == Spaces(k)[2..] + t;
    assert Spaces(k)[2..] == Spaces(k - 2);
  }

  lemma SpacesCons(k: nat)
    ensures Spaces(k + 1) == " " + Spaces(k)
  {
  }

  lemma CollapsePair(s: string)
    requires |s| >= 2 && s[0] == ' ' && s[1] == ' '
    ensures CollapseDoubleSpaces(s) == " " + CollapseDoubleSpaces(s[2..])
  {
  }

  lemma CollapseShortRun(k: nat, t: string, s: string)
    requires k <= 1 && (t == [] || t[0] != ' ') && s == Spaces(k) + t
    ensures CollapseDoubleSpaces(s) == Spaces(k) + CollapseDoubleSpaces(t)
  {
    if k == 0 {
      assert s == t;
    } else {
      assert s[0] == ' ' && s[1..] == t;
    }
  }

  /** A run of k spaces before a non-space becomes ceil(k/2) spaces. */
  lemma {:induction false} CollapseRun(k: nat, t: string)
    requires t == [] || t[0] != ' '
    ensures CollapseDoubleSpaces(Spaces(k) + t) == Spaces((k + 1) / 2) + CollapseDoubleSpaces(t)
    decreases k
  {
    var s := Spaces(k) + t;
    if k <= 1 {
      CollapseShortRun(k, t, s);
    } else {
      SpacesParts(k, t, s);
      CollapsePair(s);
      CollapseRun(k - 2, t);
      assert (k + 1) / 2 == (k - 1) / 2 + 1;
      SpacesCons((k - 1) / 2);
    }
  }

  /** The pairwise scan halves every maximal run of spaces, rounding up, and copies the rest. */
  lemma {:induction false} CollapseHalvesRuns(s: string)
    ensures CollapseDoubleSpaces(s) == HalveSpaceRuns(s)
    decreases |s|
  {
    if s != [] {
      if s[0] == ' ' {
        var k := LeadingSpaces(s);
        assert s == Spaces(k) + s[k..];
        CollapseRun(k, s[k..]);
        CollapseHalvesRuns(s[k..]);
      } else {
        CollapseHalvesRuns(s[1..]);
      }
    }
  }

  /** The characters other than spaces, in order. */
  function NonSpaces(s: string): string
    decreases |s|
  {
    if s == [] then [] else (if s[0] == ' ' then [] else [s[0]]) + NonSpaces(s[1..])
  }

  /** Collapsing keeps every character except spaces, unchanged and in order, and never grows the text. */
  lemma {:induction false} CollapseKeepsOthers(s: string)
    ensures NonSpaces(CollapseDoubleSpaces(s)) == NonSpaces(s)
    ensures IsSubsequence(CollapseDoubleSpaces(s), s)
    ensures |CollapseDoubleSpaces(s)| <= |s|
    decreases |s|
  {
    var r := CollapseDoubleSpaces(s);
    if s != [] {
      if |s| >= 2 && s[0] == ' ' && s[1] == ' ' {
        var rest := CollapseDoubleSpaces(s[2..]);
        CollapseKeepsOthers(s[2..]);
        assert r[1..] == rest;
        assert s[1..][1..] == s[2..];
        SubsequenceCons(' ', rest, s[2..]);
        assert [' '] + s[2..] == s[1..];
        SubsequenceOfLonger(r, [s[0]], s[1..]);
        assert [s[0]] + s[1..] == s;
      } else {
        var rest := CollapseDoubleSpaces(s[1..]);
        CollapseKeepsOthers(s[1..]);
        assert r[1..] == rest;
        SubsequenceCons(s[0], rest, s[1..]);
        assert [s[0]] + s[1..] == s;
      }
      SubsequenceLength(r, s);
    }
  }

  // ---------------------------------------------------------------------------
  // The whole sanitizer
  // ---------------------------------------------------------------------------

  /** `removeDates`: spans deleted first, then double spaces collapsed. */
  function RemoveDates(text: string): string {
    CollapseDoubleSpaces(RemoveParenthesized(text))
  }

  /** The value `sanitizeContent` stores in `sourceContentSanitized`. */
  function Sanitize(original: string): string {
    RemoveDates(RemoveBlankLinesAndMarkdown(original))
  }

  /**
   * The sanitized text holds no line break, is no longer than the filtered lines it
   * comes from, and is empty when every line of the input is blank or a heading.
   */
  lemma SanitizeShape(original: string)
    ensures '\n' !in Sanitize(original)
    ensures |Sanitize(original)| <= |RemoveBlankLinesAndMarkdown(original)|
    ensures NoLineKept(Split(original, '\n')) ==> Sanitize(original) == ""
  {
    var joined := RemoveBlankLinesAndMarkdown(original);
    var noSpans := RemoveParenthesized(joined);
    FilteredHasNoLineBreak(original);
    FilteredEmpty(original);
    CollapseKeepsOthers(noSpans);
    if '\n' in Sanitize(original) {
      SubsequenceMembers(Sanitize(original), noSpans, '\n');
      SubsequenceMembers(noSpans, joined, '\n');
    }
  }
}
