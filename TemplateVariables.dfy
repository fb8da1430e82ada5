/**
 * `extract_variables` of the AI microservice: every non-overlapping match of
 * the pattern `\{\{\s*(\w+)\s*\}\}`, leftmost first, contributes its captured
 * identifier, in order and with duplicates kept.
 *
 * `\s` and `\w` share no character and neither contains a brace, so at a given
 * position the pattern can match in at most one way: the opening braces, the
 * longest run of whitespace, the longest (non-empty) run of word characters,
 * the longest run of whitespace, the closing braces. The scanner below tries
 * each position from left to right and, after a match, resumes at its end; as
 * the pattern has no anchors or look-around, it is written here over the
 * remaining suffix of the text.
 */
module TemplateVariables {
  import opened Wrappers
  import opened Text

  /** A match: the captured identifier and the position just after the closing braces. */
  datatype Capture = Capture(name: string, end: nat)

  /** A non-empty run of word characters: what the group `(\w+)` captures. */
  predicate IsIdentifier(s: string) {
    |s| > 0 && forall i :: 0 <= i < |s| ==> IsWordChar(s[i])
  }

  /** The two character classes of the pattern: `\s` and `\w`. */
  datatype CharClass = Space | Word

  predicate InClass(f: CharClass, c: char) {
    match f
    case Space => IsWhitespace(c)
    case Word => IsWordChar(c)
  }

  /** The position just after the longest run of `f`-characters that starts at `p`. */
  function SkipWhile(f: CharClass, t: string, p: nat): (q: nat)
    requires p <= |t|
    ensures p <= q <= |t|
    ensures forall i :: p <= i < q ==> InClass(f, t[i])
    ensures q == |t| || !InClass(f, t[q])
    decreases |t| - p
  {
    if p < |t| && InClass(f, t[p]) then SkipWhile(f, t, p + 1) else p
  }

  /** A run of `f`-characters from `p` that stops at `q` ends exactly there. */
  lemma SkipWhileStopsAt(f: CharClass, t: string, p: nat, q: nat)
    requires p <= q <= |t|
    requires forall i :: p <= i < q ==> InClass(f, t[i])
    requires q == |t| || !InClass(f, t[q])
    ensures SkipWhile(f, t, p) == q
  {
  }

  /** The pattern matches at the start of `t`, with `\s*` over `[2, a)`, `(\w+)` over `[a, b)`, `\s*` over `[b, c)`. */
  ghost predicate MatchesPattern(t: string, a: int, b: int, c: int) {
    && 2 <= a < b <= c && c + 2 <= |t|
    && t[0] == '{' && t[1] == '{'
    && (forall i :: 2 <= i < a ==> IsWhitespace(t[i]))
    && (forall i :: a <= i < b ==> IsWordChar(t[i]))
    && (forall i :: b <= i < c ==> IsWhitespace(t[i]))
    && t[c] == '}' && t[c + 1] == '}'
  }

  /** The match of the pattern at the start of `t`, if there is one. */
  function MatchPrefix(t: string): (m: Option<Capture>)
    ensures m.Some? ==> 5 <= m.value.end <= |t| && IsIdentifier(m.value.name)
  {
    if 2 <= |t| && t[0] == '{' && t[1] == '{' then
      var a := SkipWhile(Space, t, 2);
      var b := SkipWhile(Word, t, a);
      var c := SkipWhile(Space, t, b);
      if a < b && c + 2 <= |t| && t[c] == '}' && t[c + 1] == '}' then
        Some(Capture(t[a..b], c + 2))
      else
        None
    else
      None
  }

  /**
   * MatchPrefix finds a match exactly when the pattern matches at the start of
   * `t`, and then returns the pattern's capture group and the end of the match.
   */
  lemma MatchPrefixIsPatternMatch(t: string)
    ensures MatchPrefix(t).Some? ==>
      exists a, b, c :: MatchesPattern(t, a, b, c) && MatchPrefix(t).value == Capture(t[a..b], c + 2)
    ensures forall a, b, c :: MatchesPattern(t, a, b, c) ==> MatchPrefix(t) == Some(Capture(t[a..b], c + 2))
  {
    if MatchPrefix(t).Some? {
      var a := SkipWhile(Space, t, 2);
      var b := SkipWhile(Word, t, a);
      var c := SkipWhile(Space, t, b);
      assert MatchesPattern(t, a, b, c);
    }
    forall a, b, c | MatchesPattern(t, a, b, c) ensures MatchPrefix(t) == Some(Capture(t[a..b], c + 2)) {
      WhitespaceIsNotWord(t[a]);
      SkipWhileStopsAt(Space, t, 2, a);
      WhitespaceIsNotWord(t[b]);
      SkipWhileStopsAt(Word, t, a, b);
      SkipWhileStopsAt(Space, t, b, c);
    }
  }

  /** `captures_iter` over `t`, keeping each capture group. */
  function Scan(t: string): (r: seq<string>)
    ensures forall k :: 0 <= k < |r| ==> IsIdentifier(r[k])
    decreases |t|
  {
    if t == [] then []
    else
      match MatchPrefix(t)
      case Some(m) => [m.name] + Scan(t[m.end..])
      case None => Scan(t[1..])
  }

  /** `extract_variables`: the identifiers of all placeholders, left to right, duplicates kept. */
  function ExtractVariables(template: string): (r: seq<string>)
    ensures forall k :: 0 <= k < |r| ==> IsIdentifier(r[k])
  {
    Scan(template)
  }

  /** A `{{` starts at `q`. */
  predicate OpensAt(t: string, q: int) {
    0 <= q && q + 1 < |t| && t[q] == '{' && t[q + 1] == '{'
  }

  /** The number of positions where a `{{` starts. */
  function CountOpenings(t: string): nat
    decreases |t|
  {
    if t == [] then 0
    else (if OpensAt(t, 0) then 1 else 0) + CountOpenings(t[1..])
  }

  /** Dropping a prefix never adds a `{{`. */
  lemma {:induction false} CountOpeningsOfSuffix(t: string, k: nat)
    requires k <= |t|
    ensures CountOpenings(t[k..]) <= CountOpenings(t)
    decreases k
  {
    if k > 0 {
      CountOpeningsOfSuffix(t[1..], k - 1);
      assert t[1..][k - 1..] == t[k..];
    }
  }

  /** The scanner never reports more names than there are `{{` in the text. */
  lemma {:induction false} ScanBounded(t: string)
    ensures |Scan(t)| <= CountOpenings(t)
    decreases |t|
  {
    if t != [] {
      match MatchPrefix(t)
      case Some(m) =>
        ScanBounded(t[m.end..]);
        CountOpeningsOfSuffix(t[1..], m.end - 1);
        assert t[1..][m.end - 1..] == t[m.end..];
      case None =>
        ScanBounded(t[1..]);
    }
  }

  /** `extract_variables` returns at most one name per `{{` in the template. */
  lemma ExtractVariablesBounded(template: string)
    ensures |ExtractVariables(template)| <= CountOpenings(template)
  {
    ScanBounded(template);
  }

  lemma {:induction false} NoOpeningsCountsZero(t: string)
    requires forall q :: 0 <= q < |t| ==> !OpensAt(t, q)
    ensures CountOpenings(t) == 0
    decreases |t|
  {
    if t != [] {
      forall q | 0 <= q < |t| - 1 ensures !OpensAt(t[1..], q) {
        assert !OpensAt(t, q + 1);
      }
      NoOpeningsCountsZero(t[1..]);
    }
  }

  /** A template without `{{` has no variables. */
  lemma NoOpeningsNoVariables(template: string)
    requires forall q :: 0 <= q < |template| ==> !OpensAt(template, q)
    ensures ExtractVariables(template) == []
  {
    NoOpeningsCountsZero(template);
    ExtractVariablesBounded(template);
  }

  // Templates built from literal text and placeholders.

  /** A piece of a template: literal text, or a `{{ name }}` placeholder. */
  datatype Segment = Literal(text: string) | Placeholder(name: string)

  /** Literal text holds no `{`, and every placeholder names an identifier. */
  predicate WellFormed(segments: seq<Segment>) {
    forall k :: 0 <= k < |segments| ==>
      match segments[k]
      case Literal(text) => forall i :: 0 <= i < |text| ==> text[i] != '{'
      case Placeholder(name) => IsIdentifier(name)
  }

  function Piece(s: Segment): string {
    match s
    case Literal(text) => text
    case Placeholder(name) => "{{ " + name + " }}"
  }

  function Render(segments: seq<Segment>): string {
    if segments == [] then [] else Piece(segments[0]) + Render(segments[1..])
  }

  /** The names of the placeholders, in order. */
  function PlaceholderNames(segments: seq<Segment>): seq<string> {
    if segments == [] then []
    else if segments[0].Placeholder? then [segments[0].name] + PlaceholderNames(segments[1..])
    else PlaceholderNames(segments[1..])
  }

  /** Literal text without `{` contributes no variable. */
  lemma {:induction false} LiteralSkipped(text: string, rest: string)
    requires forall i :: 0 <= i < |text| ==> text[i] != '{'
    ensures Scan(text + rest) == Scan(rest)
    decreases |text|
  {
    if text != [] {
      var t := text + rest;
      assert t[0] == text[0] && t[1..] == text[1..] + rest;
      assert MatchPrefix(t).None?;
      LiteralSkipped(text[1..], rest);
    } else {
      assert text + rest == rest;
    }
  }

  /** A `{{ name }}` placeholder matches, whatever follows it. */
  lemma PlaceholderMatches(name: string, rest: string)
    requires IsIdentifier(name)
    ensures MatchPrefix(Piece(Placeholder(name)) + rest) == Some(Capture(name, |name| + 6))
  {
    var t := Piece(Placeholder(name)) + rest;
    var n := |name|;
    assert t[..2] == "{{" && t[2] == ' ' && t[3..3 + n] == name && t[3 + n] == ' ';
    assert t[4 + n] == '}' && t[5 + n] == '}';
    assert MatchesPattern(t, 3, 3 + n, 4 + n);
    MatchPrefixIsPatternMatch(t);
  }

  /** Extracting from a rendered template gives back its placeholder names, in order. */
  lemma {:induction false} ExtractRendered(segments: seq<Segment>)
    requires WellFormed(segments)
    ensures ExtractVariables(Render(segments)) == PlaceholderNames(segments)
  {
    if segments != [] {
      var rest := Render(segments[1..]);
      assert WellFormed(segments[1..]) by {
        forall k | 0 <= k < |segments| - 1 ensures segments[1..][k] == segments[k + 1] { }
      }
      ExtractRendered(segments[1..]);
      var piece := Piece(segments[0]);
      match segments[0]
      case Literal(text) =>
        LiteralSkipped(text, rest);
      case Placeholder(name) =>
        PlaceholderMatches(name, rest);
        assert (piece + rest)[|name| + 6..] == rest;
    }
  }
}
