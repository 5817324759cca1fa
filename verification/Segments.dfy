/**
 Turning a provider's word timestamps into transcript segments.

 The loop of `elevenLabsWordsToSegments` is proved against a declarative reading:
 the kept tokens are cut into groups, a token opens a new group exactly when the
 group before it cannot take it, and only one grouping has that property.
 */
module Segments {
  import opened Options
  import opened Strings

  const GAP_SECONDS: real := 1.0
  const MAX_SECONDS: real := 15.0
  const MAX_CHARS: int := 250

  /** A word as the provider sends it; a number that is missing or not finite is None. */
  datatype Word = Word(kind: string, text: string, start: Option<real>, end: Option<real>)

  datatype Token = Token(start: real, end: real, text: string)

  datatype Segment = Segment(startMs: int, endMs: int, text: string)

  /** The words the loop does not skip, and what it reads of them. */
  function TokenOf(w: Word): Option<Token> {
    if w.kind != "word" && w.kind != "audio_event" then None
    else if w.start.None? || w.start.value < 0.0 || w.end.None? || w.end.value < 0.0 then None
    else if w.end.value < w.start.value || Trim(w.text) == "" then None
    else Some(Token(w.start.value, w.end.value, Trim(w.text)))
  }

  function Kept(words: seq<Word>): seq<Token>
    decreases |words|
  {
    if words == [] then []
    else
      var last := TokenOf(words[|words| - 1]);
      Kept(words[..|words| - 1]) + if last.Some? then [last.value] else []
  }

  predicate Clings(c: char) { c in ",.;:!?%)]}" || c == '\'' || c == '\U{2019}' }

  function AppendToken(existing: string, token: string): string {
    if existing == "" then token
    else if token != "" && Clings(token[0]) then existing + token
    else existing + " " + token
  }

  /** Math.round: halves go up. */
  function Round(x: real): int { (x + 0.5).Floor }

  function Max(x: real, y: real): real { if x >= y then x else y }

  // ---- Groups ------------------------------------------------------------------------------

  /** The latest end of a group's tokens. */
  function End(g: seq<Token>): real
    requires g != []
    decreases |g|
  {
    if |g| == 1 then g[0].end else Max(End(g[..|g| - 1]), g[|g| - 1].end)
  }

  function Text(g: seq<Token>): string
    decreases |g|
  {
    if g == [] then "" else AppendToken(Text(g[..|g| - 1]), g[|g| - 1].text)
  }

  /** The group cannot take the token: a gap, too long a span, or too much text. */
  predicate Split(g: seq<Token>, t: Token)
    requires g != []
  {
    || t.start - End(g) >= GAP_SECONDS
    || t.end - g[0].start > MAX_SECONDS
    || |AppendToken(Text(g), t.text)| > MAX_CHARS
  }

  ghost predicate Cohesive(g: seq<Token>) {
    g != [] && forall k :: 1 <= k < |g| ==> !Split(g[..k], g[k])
  }

  function Concat(groups: seq<seq<Token>>): seq<Token>
    decreases |groups|
  {
    if groups == [] then [] else groups[0] + Concat(groups[1..])
  }

  /** Group i was opened because the one before it could not take its first token. */
  ghost predicate Cut(groups: seq<seq<Token>>, i: int)
    requires 1 <= i < |groups|
  {
    groups[i - 1] != [] && groups[i] != [] && Split(groups[i - 1], groups[i][0])
  }

  /** The tokens cut into groups, each as long as it may be. */
  ghost predicate Greedy(groups: seq<seq<Token>>, tokens: seq<Token>) {
    && Concat(groups) == tokens
    && (forall i :: 0 <= i < |groups| ==> Cohesive(groups[i]))
    && (forall i :: 1 <= i < |groups| ==> Cut(groups, i))
  }

  function Rendered(g: seq<Token>): Segment
    requires g != []
  {
    Segment(Round(g[0].start * 1000.0), Round(End(g) * 1000.0), Text(g))
  }

  ghost predicate Renders(result: seq<Segment>, groups: seq<seq<Token>>) {
    |result| == |groups| && forall i :: 0 <= i < |groups| ==> groups[i] != [] && result[i] == Rendered(groups[i])
  }

  lemma {:induction false} ConcatAppend(groups: seq<seq<Token>>, g: seq<Token>)
    ensures Concat(groups + [g]) == Concat(groups) + g
    decreases |groups|
  {
    if groups == [] {
      assert [g][1..] == [] && Concat([g]) == g + [];
    } else {
      ConcatAppend(groups[1..], g);
      assert (groups + [g])[1..] == groups[1..] + [g];
    }
  }

  datatype Current = Current(start: real, end: real, text: string)

  ghost predicate Describes(current: Option<Current>, g: seq<Token>) {
    if g == [] then current.None?
    else current == Some(Current(g[0].start, End(g), Text(g)))
  }

  lemma GroupGrows(g: seq<Token>, t: Token)
    requires Cohesive(g) && !Split(g, t)
    ensures Cohesive(g + [t]) && End(g + [t]) == Max(End(g), t.end) && Text(g + [t]) == AppendToken(Text(g), t.text)
  {
    assert (g + [t])[..|g|] == g;
    forall k | 1 <= k < |g| + 1 ensures !Split((g + [t])[..k], (g + [t])[k]) {
      if k < |g| {
        assert (g + [t])[..k] == g[..k];
      }
    }
  }

  ghost predicate Open(groups: seq<seq<Token>>, g: seq<Token>) {
    && (forall i :: 0 <= i < |groups| ==> Cohesive(groups[i]))
    && (forall i :: 1 <= i < |groups| ==> Cut(groups, i))
    && (g != [] ==> Cohesive(g))
    && (g == [] ==> groups == [])
    && (g != [] && groups != [] ==> Split(groups[|groups| - 1], g[0]))
  }

  /** The loop's state after the tokens read so far: the groups written out and the one being built. */
  ghost predicate Reading(tokens: seq<Token>, result: seq<Segment>, groups: seq<seq<Token>>, current: Option<Current>, g: seq<Token>) {
    Concat(groups) + g == tokens && Open(groups, g) && Renders(result, groups) && Describes(current, g)
  }

  function Written(c: Current): Segment { Segment(Round(c.start * 1000.0), Round(c.end * 1000.0), c.text) }

  lemma FirstToken(groups: seq<seq<Token>>, t: Token)
    requires Reading([], [], groups, None, [])
    ensures Reading([t], [], groups, Some(Current(t.start, t.end, t.text)), [t])
  {
    assert Text([]) == "" && [t][..0] == [];
  }

  lemma TokenTaken(tokens: seq<Token>, result: seq<Segment>, groups: seq<seq<Token>>, c: Current, g: seq<Token>, t: Token)
    requires g != [] && Reading(tokens, result, groups, Some(c), g) && !Split(g, t)
    ensures Reading(tokens + [t], result, groups,
                    Some(Current(c.start, Max(c.end, t.end), AppendToken(c.text, t.text))), g + [t])
  {
    GroupGrows(g, t);
    assert Concat(groups) + (g + [t]) == tokens + [t];
  }

  lemma GroupClosed(tokens: seq<Token>, result: seq<Segment>, groups: seq<seq<Token>>, c: Current, g: seq<Token>, t: Token)
    requires g != [] && Reading(tokens, result, groups, Some(c), g) && Split(g, t)
    ensures Reading(tokens + [t], result + [Written(c)], groups + [g], Some(Current(t.start, t.end, t.text)), [t])
  {
    ConcatAppend(groups, g);
    assert Text([]) == "" && [t][..0] == [];
    OpenClosed(groups, g, t);
  }

  lemma OpenClosed(groups: seq<seq<Token>>, g: seq<Token>, t: Token)
    requires Open(groups, g) && g != [] && Split(g, t)
    ensures Open(groups + [g], [t])
  {
    CutsKept(groups, g);
  }

  lemma CutsKept(groups: seq<seq<Token>>, g: seq<Token>)
    requires Open(groups, g) && g != []
    ensures var more := groups + [g];
      (forall i :: 0 <= i < |more| ==> Cohesive(more[i])) && (forall i :: 1 <= i < |more| ==> Cut(more, i))
  {
    var more := groups + [g];
    forall i | 0 <= i < |more| ensures Cohesive(more[i]) {
      assert i < |groups| ==> more[i] == groups[i];
    }
    forall i | 1 <= i < |more| ensures Cut(more, i) {
      if i < |groups| {
        assert Cut(groups, i);
        assert more[i] == groups[i] && more[i - 1] == groups[i - 1];
      } else {
        assert Cohesive(groups[i - 1]);
        assert more[i] == g && more[i - 1] == groups[|groups| - 1];
      }
    }
  }

  lemma AllRead(tokens: seq<Token>, result: seq<Segment>, groups: seq<seq<Token>>, c: Current, g: seq<Token>)
    requires g != [] && Reading(tokens, result, groups, Some(c), g)
    ensures Greedy(groups + [g], tokens) && Renders(result + [Written(c)], groups + [g])
  {
    ConcatAppend(groups, g);
    CutsKept(groups, g);
  }

  /** The groups the segments were made of are returned beside them for the proofs. */
  method ElevenLabsWordsToSegments(words: seq<Word>) returns (result: seq<Segment>, ghost groups: seq<seq<Token>>)
    ensures Greedy(groups, Kept(words)) && Renders(result, groups)
  {
    result, groups := [], [];
    var current: Option<Current> := None;
    ghost var g: seq<Token> := [];
    for i := 0 to |words|
      invariant Reading(Kept(words[..i]), result, groups, current, g)
    {
      assert words[..i + 1][..i] == words[..i];
      var token := TokenOf(words[i]);
      if token.Some? {
        var t := token.value;
        var nextText := if current.Some? then AppendToken(current.value.text, t.text) else t.text;
        var split := current.Some? &&
          (t.start - current.value.end >= GAP_SECONDS || t.end - current.value.start > MAX_SECONDS || |nextText| > MAX_CHARS);
        if current.None? || split {
          if current.Some? {
            GroupClosed(Kept(words[..i]), result, groups, current.value, g, t);
            result, groups := result + [Written(current.value)], groups + [g];
          } else {
            FirstToken(groups, t);
          }
          g := [t];
          current := Some(Current(t.start, t.end, t.text));
        } else {
          TokenTaken(Kept(words[..i]), result, groups, current.value, g, t);
          g := g + [t];
          current := Some(Current(current.value.start, Max(current.value.end, t.end), nextText));
        }
      }
    }
    assert words[..|words|] == words;
    if current.Some? {
      AllRead(Kept(words), result, groups, current.value, g);
      result, groups := result + [Written(current.value)], groups + [g];
    }
  }

  // ---- What the segments are ------------------------------------------------------------------

  lemma {:induction false} ConcatPrefix(groups: seq<seq<Token>>)
    requires groups != [] && forall i :: 0 <= i < |groups| ==> groups[i] != []
    ensures groups[0] <= Concat(groups)
    ensures |groups| > 1 ==> |groups[0]| < |Concat(groups)| && Concat(groups)[|groups[0]|] == groups[1][0]
    ensures |groups| == 1 ==> Concat(groups) == groups[0]
  {
    assert |groups| > 1 ==> Concat(groups[1..]) == groups[1] + Concat(groups[1..][1..]);
  }

  lemma LongerIsNotCohesive(groups: seq<seq<Token>>, tokens: seq<Token>, h: seq<Token>)
    requires Greedy(groups, tokens) && groups != [] && h <= tokens && |h| > |groups[0]|
    ensures !Cohesive(h)
  {
    assert forall i :: 0 <= i < |groups| ==> Cohesive(groups[i]);
    ConcatPrefix(groups);
    var n := |groups[0]|;
    assert Cut(groups, 1);
    assert h[..n] == groups[0] && h[n] == groups[1][0];
  }

  /** The first group is as long as any cohesive start of the tokens. */
  lemma FirstGroupLongest(groups: seq<seq<Token>>, tokens: seq<Token>, h: seq<Token>)
    requires Greedy(groups, tokens) && groups != [] && Cohesive(h) && h <= tokens
    ensures |h| <= |groups[0]|
  {
    if |h| > |groups[0]| {
      LongerIsNotCohesive(groups, tokens, h);
    }
  }

  lemma GreedyTail(groups: seq<seq<Token>>, tokens: seq<Token>)
    requires Greedy(groups, tokens) && groups != []
    ensures groups[0] <= tokens && groups[0] != [] && Greedy(groups[1..], tokens[|groups[0]|..])
  {
    assert Cohesive(groups[0]);
    var rest := groups[1..];
    forall i | 1 <= i < |rest| ensures Cut(rest, i) {
      assert Cut(groups, i + 1);
    }
  }

  /** The segmentation is determined: only one grouping of the tokens is greedy. */
  lemma {:induction false} GreedyIsUnique(xs: seq<seq<Token>>, ys: seq<seq<Token>>, tokens: seq<Token>)
    requires Greedy(xs, tokens) && Greedy(ys, tokens)
    ensures xs == ys
    decreases |xs|
  {
    if xs == [] || ys == [] {
      if xs != [] { GreedyTail(xs, tokens); }
      if ys != [] { GreedyTail(ys, tokens); }
    } else {
      GreedyTail(xs, tokens);
      GreedyTail(ys, tokens);
      FirstGroupLongest(xs, tokens, ys[0]);
      FirstGroupLongest(ys, tokens, xs[0]);
      assert xs[0] == ys[0];
      GreedyIsUnique(xs[1..], ys[1..], tokens[|xs[0]|..]);
      assert xs == [xs[0]] + xs[1..] && ys == [ys[0]] + ys[1..];
    }
  }

  lemma {:induction false} KeptAreSound(words: seq<Word>)
    ensures forall i :: 0 <= i < |Kept(words)| ==>
      0.0 <= Kept(words)[i].start <= Kept(words)[i].end && Kept(words)[i].text != ""
    decreases |words|
  {
    if words != [] { KeptAreSound(words[..|words| - 1]); }
  }

  /** A group ends at the latest end of its tokens. */
  lemma {:induction false} EndIsMaximum(g: seq<Token>)
    requires g != []
    ensures forall i :: 0 <= i < |g| ==> g[i].end <= End(g)
    ensures exists i :: 0 <= i < |g| && g[i].end == End(g)
    decreases |g|
  {
    if |g| > 1 {
      var n := |g| - 1;
      EndIsMaximum(g[..n]);
      var i :| 0 <= i < n && g[..n][i].end == End(g[..n]);
      assert g[i].end == End(g[..n]);
      assert End(g) == g[i].end || End(g) == g[n].end;
      forall j | 0 <= j < |g| ensures g[j].end <= End(g) {
        if j < n { assert g[..n][j].end <= End(g[..n]); }
      }
    } else {
      assert g[0].end == End(g);
    }
  }

  lemma RoundMonotone(x: real, y: real)
    requires x <= y
    ensures Round(x) <= Round(y)
  {
  }

  lemma {:induction false} CohesivePrefix(g: seq<Token>, n: nat)
    requires Cohesive(g) && 1 <= n <= |g|
    ensures Cohesive(g[..n])
  {
    forall k | 1 <= k < n ensures !Split(g[..n][..k], g[..n][k]) {
      assert g[..n][..k] == g[..k];
    }
  }

  /** Either the whole span is within the limit or it is the first token's own. */
  lemma {:induction false} SpanBounded(g: seq<Token>)
    requires Cohesive(g)
    ensures End(g) - g[0].start <= MAX_SECONDS || End(g) == g[0].end
    decreases |g|
  {
    var n := |g| - 1;
    if n > 0 {
      CohesivePrefix(g, n);
      SpanBounded(g[..n]);
      assert !Split(g[..n], g[n]);
    }
  }

  /** A segment starts at its first word, ends at its last sound, and keeps the limits unless one word breaks them. */
  lemma SegmentBounds(g: seq<Token>)
    requires Cohesive(g) && forall i :: 0 <= i < |g| ==> g[i].start <= g[i].end
    ensures var s := Rendered(g);
      && s.startMs == Round(g[0].start * 1000.0) && s.startMs <= s.endMs
      && (|s.text| <= MAX_CHARS || |g| == 1)
      && (End(g) - g[0].start <= MAX_SECONDS || End(g) == g[0].end)
  {
    EndIsMaximum(g);
    SpanBounded(g);
    RoundMonotone(g[0].start * 1000.0, End(g) * 1000.0);
    if |g| > 1 {
      assert !Split(g[..|g| - 1], g[|g| - 1]);
    }
  }

  // ---- Nothing is lost -------------------------------------------------------------------------

  /** A text without its white space. */
  function Squeeze(s: string): string
    decreases |s|
  {
    if s == "" then "" else Squeeze(s[..|s| - 1]) + if IsSpace(s[|s| - 1]) then "" else [s[|s| - 1]]
  }

  lemma {:induction false} SqueezeConcat(s: string, t: string)
    ensures Squeeze(s + t) == Squeeze(s) + Squeeze(t)
    decreases |t|
  {
    if t == "" {
      assert s + t == s;
    } else {
      var n := |t| - 1;
      SqueezeConcat(s, t[..n]);
      assert (s + t)[..|s + t| - 1] == s + t[..n];
    }
  }

  function TokenTexts(tokens: seq<Token>): string
    decreases |tokens|
  {
    if tokens == [] then "" else TokenTexts(tokens[..|tokens| - 1]) + tokens[|tokens| - 1].text
  }

  function SegmentTexts(result: seq<Segment>): string
    decreases |result|
  {
    if result == [] then "" else SegmentTexts(result[..|result| - 1]) + result[|result| - 1].text
  }

  lemma SpaceVanishes(s: string)
    ensures Squeeze(s + " ") == Squeeze(s)
  {
    assert (s + " ")[..|s|] == s;
  }

  lemma AppendSqueezed(existing: string, token: string)
    ensures Squeeze(AppendToken(existing, token)) == Squeeze(existing) + Squeeze(token)
  {
    if existing == "" {
      assert Squeeze("") == "";
    } else if token != "" && Clings(token[0]) {
      SqueezeConcat(existing, token);
    } else {
      SqueezeConcat(existing + " ", token);
      SpaceVanishes(existing);
    }
  }

  lemma {:induction false} TextSqueezed(g: seq<Token>)
    ensures Squeeze(Text(g)) == Squeeze(TokenTexts(g))
    decreases |g|
  {
    if g != [] {
      var n := |g| - 1;
      TextSqueezed(g[..n]);
      AppendSqueezed(Text(g[..n]), g[n].text);
      SqueezeConcat(TokenTexts(g[..n]), g[n].text);
    }
  }

  lemma TextsAppend(tokens: seq<Token>, t: Token)
    ensures TokenTexts(tokens + [t]) == TokenTexts(tokens) + t.text
  {
    assert (tokens + [t])[..|tokens|] == tokens;
  }

  lemma LastToken(xs: seq<Token>, ys: seq<Token>)
    requires ys != []
    ensures ys == ys[..|ys| - 1] + [ys[|ys| - 1]]
    ensures xs + ys == (xs + ys[..|ys| - 1]) + [ys[|ys| - 1]]
  {
  }

  lemma Regroup(a: string, b: string, c: string)
    ensures (a + b) + c == a + (b + c)
  {
  }

  lemma {:induction false} TextsConcat(xs: seq<Token>, ys: seq<Token>)
    ensures TokenTexts(xs + ys) == TokenTexts(xs) + TokenTexts(ys)
    decreases |ys|
  {
    if ys == [] {
      assert xs + ys == xs;
    } else {
      var front, last := ys[..|ys| - 1], ys[|ys| - 1];
      TextsConcat(xs, front);
      LastToken(xs, ys);
      TextsAppend(xs + front, last);
      TextsAppend(front, last);
      Regroup(TokenTexts(xs), TokenTexts(front), last.text);
    }
  }

  lemma {:induction false} RenderedTexts(result: seq<Segment>, groups: seq<seq<Token>>)
    requires Renders(result, groups)
    ensures Squeeze(SegmentTexts(result)) == Squeeze(TokenTexts(Concat(groups)))
    decreases |result|
  {
    if result != [] {
      var n := |result| - 1;
      RenderedTexts(result[..n], groups[..n]);
      assert groups == groups[..n] + [groups[n]];
      ConcatAppend(groups[..n], groups[n]);
      SqueezeConcat(SegmentTexts(result[..n]), result[n].text);
      TextSqueezed(groups[n]);
      TextsConcat(Concat(groups[..n]), groups[n]);
      SqueezeConcat(TokenTexts(Concat(groups[..n])), TokenTexts(groups[n]));
    }
  }

  /**
   The segments' texts hold exactly the kept tokens, in order: apart from white
   space no character is lost, repeated or moved.
   */
  lemma SegmentsConserveText(words: seq<Word>, result: seq<Segment>, groups: seq<seq<Token>>)
    requires Greedy(groups, Kept(words)) && Renders(result, groups)
    ensures Squeeze(SegmentTexts(result)) == Squeeze(TokenTexts(Kept(words)))
  {
    RenderedTexts(result, groups);
  }

  lemma {:induction false} GroupMembers(groups: seq<seq<Token>>, i: nat)
    requires i < |groups|
    ensures forall k :: 0 <= k < |groups[i]| ==> groups[i][k] in Concat(groups)
    decreases i
  {
    if i > 0 {
      GroupMembers(groups[1..], i - 1);
      assert groups[1..][i - 1] == groups[i];
    }
  }

  /** Every segment of every transcript keeps its limits. */
  lemma EverySegmentBounded(words: seq<Word>, result: seq<Segment>, groups: seq<seq<Token>>, i: nat)
    requires Greedy(groups, Kept(words)) && Renders(result, groups) && i < |result|
    ensures result[i].startMs <= result[i].endMs && result[i].startMs >= 0
    ensures |result[i].text| <= 250 || |groups[i]| == 1
    ensures result[i].endMs <= Round((groups[i][0].start + 15.0) * 1000.0) || result[i].endMs == Round(groups[i][0].end * 1000.0)
  {
    KeptAreSound(words);
    GroupMembers(groups, i);
    var g := groups[i];
    forall k | 0 <= k < |g| ensures 0.0 <= g[k].start <= g[k].end {
      assert g[k] in Kept(words);
    }
    assert Cohesive(g);
    SegmentBounds(g);
    if End(g) != g[0].end {
      RoundMonotone(End(g) * 1000.0, (g[0].start + MAX_SECONDS) * 1000.0);
    }
    assert g[0].start >= 0.0;
  }

  // ---- The tokens can be read back ----------------------------------------------------------------

  /** A text cut at its spaces. */
  function Words(s: string): (r: seq<string>)
    ensures r != []
    decreases |s|
  {
    if s == "" then [""]
    else
      var before, c := Words(s[..|s| - 1]), s[|s| - 1];
      if c == ' ' then before + [""] else before[..|before| - 1] + [before[|before| - 1] + [c]]
  }

  ghost predicate Plain(token: string) { token != "" && !Clings(token[0]) && ' ' !in token }

  lemma {:induction false} NewWord(s: string, token: string)
    requires ' ' !in token
    ensures Words(s + " " + token) == Words(s) + [token]
    decreases |token|
  {
    var all := s + " " + token;
    if token == "" {
      assert all == s + " " && all[..|all| - 1] == s;
    } else {
      var n := |token| - 1;
      NewWord(s, token[..n]);
      assert all[..|all| - 1] == s + " " + token[..n];
      assert token == token[..n] + [token[n]];
      assert token[n] in token && all[|all| - 1] == token[n];
    }
  }

  lemma {:induction false} OneWord(token: string)
    requires ' ' !in token
    ensures Words(token) == [token]
    decreases |token|
  {
    if token != "" {
      var n := |token| - 1;
      OneWord(token[..n]);
      assert token == token[..n] + [token[n]] && token[n] in token;
    }
  }

  /** A group of plain tokens is read back from its text by cutting at the spaces. */
  lemma {:induction false} TokensReadBack(g: seq<Token>)
    requires g != [] && forall i :: 0 <= i < |g| ==> Plain(g[i].text)
    ensures |Words(Text(g))| == |g| && forall i :: 0 <= i < |g| ==> Words(Text(g))[i] == g[i].text
    ensures Text(g) != ""
    decreases |g|
  {
    var n := |g| - 1;
    assert Plain(g[n].text);
    if n == 0 {
      assert g[..0] == [] && Text(g) == g[0].text;
      OneWord(g[0].text);
    } else {
      TokensReadBack(g[..n]);
      NewWord(Text(g[..n]), g[n].text);
      assert Text(g) == Text(g[..n]) + " " + g[n].text;
    }
  }

  // ---- The rules with their figures ----------------------------------------------------------------

  /** Which words are kept: spoken words and audio events with a text and times that make sense. */
  lemma KeptAppend(words: seq<Word>, w: Word)
    ensures Kept(words + [w]) == Kept(words) +
      if (w.kind == "word" || w.kind == "audio_event") && w.start.Some? && w.end.Some? && Trim(w.text) != ""
         && 0.0 <= w.start.value <= w.end.value
      then [Token(w.start.value, w.end.value, Trim(w.text))] else []
  {
    assert (words + [w])[..|words|] == words;
  }

  /** A token is set off by one space, unless it is punctuation that closes or an apostrophe. */
  lemma AppendSpacing(existing: string, token: string)
    requires existing != "" && token != ""
    ensures AppendToken(existing, token)
         == if token[0] in [',', '.', ';', ':', '!', '?', '%', ')', ']', '}', '\'', '\U{2019}'] then existing + token
            else existing + " " + token
  {
    var closing := ",.;:!?%)]}";
    assert closing == [',', '.', ';', ':', '!', '?', '%', ')', ']', '}'];
  }

  /** Why a segment ended: a pause of a second, more than fifteen seconds, or more than 250 characters. */
  lemma WhyNewSegment(groups: seq<seq<Token>>, tokens: seq<Token>, i: nat)
    requires Greedy(groups, tokens) && 1 <= i < |groups|
    ensures groups[i - 1] != [] && groups[i] != []
    ensures var before, next := groups[i - 1], groups[i][0];
      next.start - End(before) >= 1.0 || next.end - before[0].start > 15.0 || |AppendToken(Text(before), next.text)| > 250
  {
    assert Cut(groups, i);
  }

  /** Inside a segment there is none of the three. */
  lemma WhySameSegment(groups: seq<seq<Token>>, tokens: seq<Token>, i: nat, k: nat)
    requires Greedy(groups, tokens) && i < |groups| && 1 <= k < |groups[i]|
    ensures var before, next := groups[i][..k], groups[i][k];
      next.start - End(before) < 1.0 && next.end - before[0].start <= 15.0 && |AppendToken(Text(before), next.text)| <= 250
  {
    assert Cohesive(groups[i]);
    assert !Split(groups[i][..k], groups[i][k]);
  }

  /** Milliseconds are the nearest whole ones. */
  lemma RoundIsNearest(x: real)
    ensures x - 0.5 <= Round(x) as real <= x + 0.5
  {
  }
}
