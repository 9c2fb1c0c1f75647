/**
 The constrained branch planner (backends/gds2/planner.py): options are scored against a target by
 comparing their texts, and the best one is taken without a human only when it is good enough and not
 contested.  Texts are ASCII, scores exact reals.
 */
module Planner {
  import opened Common
  import Sorting

  type Text = s: string | forall c <- s :: c as int < 128 witness ""

  datatype Ranked = Ranked(option: string, score: real)

  datatype Config = Config(minConfidence: real, ambiguityGap: real) {
    /** What the constructor accepts. */
    predicate Valid() {
      0.0 < minConfidence < 1.0 && 0.0 < ambiguityGap < 1.0
    }

    function SecondThreshold(): real {
      if minConfidence - 0.05 > 0.45 then minConfidence - 0.05 else 0.45
    }
  }

  datatype Decision = Decision(selected: Option<string>, requiresHuman: bool, confidence: real, ranked: seq<Ranked>)

  // ---------------------------------------------------------------- comparing texts

  /** What str.strip and the class \s take for white space. */
  predicate IsSpace(c: char) {
    9 <= c as int <= 13 || 28 <= c as int <= 32
  }

  predicate IsDigit(c: char) {
    '0' <= c <= '9'
  }

  predicate IsSmall(c: char) {
    'a' <= c <= 'z'
  }

  /** The class \w. */
  predicate IsWord(c: char) {
    IsSmall(c) || 'A' <= c <= 'Z' || IsDigit(c) || c == '_'
  }

  predicate IsBlank(text: string) {
    forall c <- text :: IsSpace(c)
  }

  function LowerChar(c: char): char {
    if 'A' <= c <= 'Z' then c + 32 as char else c
  }

  function Lower(s: string): string {
    if s == [] then [] else [LowerChar(s[0])] + Lower(s[1..])
  }

  function TrimLeft(s: string): string {
    if s == [] || !IsSpace(s[0]) then s else TrimLeft(s[1..])
  }

  function TrimRight(s: string): string {
    if s == [] || !IsSpace(s[|s| - 1]) then s else TrimRight(s[..|s| - 1])
  }

  function Strip(s: string): string {
    TrimRight(TrimLeft(s))
  }

  /** Every run of white space becomes one blank. */
  function Collapse(s: string): string {
    if s == [] then []
    else if !IsSpace(s[0]) then [s[0]] + Collapse(s[1..])
    else if |s| > 1 && IsSpace(s[1]) then Collapse(s[1..])
    else [' '] + Collapse(s[1..])
  }

  /** Only word characters, white space and hyphens stay. */
  function KeepWords(s: string): string {
    if s == [] then []
    else (if IsWord(s[0]) || IsSpace(s[0]) || s[0] == '-' then [s[0]] else []) + KeepWords(s[1..])
  }

  /** _normalize */
  function Normalize(s: string): string {
    KeepWords(Collapse(Strip(Lower(s))))
  }

  predicate Contains(s: string, part: string) {
    exists i :: 0 <= i <= |s| && part <= s[i..]
  }

  function AlnumLength(s: string): (n: nat)
    ensures n <= |s|
  {
    if s != [] && (IsSmall(s[0]) || IsDigit(s[0])) then 1 + AlnumLength(s[1..]) else 0
  }

  /** The first bracketed code, small letters and digits between square brackets. */
  function BracketedCode(s: string): Option<string> {
    if s == [] then None
    else
      var n := AlnumLength(s[1..]);
      if s[0] == '[' && 0 < n < |s[1..]| && s[1..][n] == ']' then Some(s[1..][..n]) else BracketedCode(s[1..])
  }

  function WordLength(s: string): (n: nat)
    ensures n <= |s|
  {
    if s != [] && IsWord(s[0]) then 1 + WordLength(s[1..]) else 0
  }

  /** `letters` small letters, then `digits` digits, then perhaps one small letter. */
  predicate IsCode(w: string, letters: nat, digits: nat) {
    && letters + digits <= |w| <= letters + digits + 1
    && (forall i :: 0 <= i < letters ==> IsSmall(w[i]))
    && (forall i :: letters <= i < letters + digits ==> IsDigit(w[i]))
    && (|w| == letters + digits + 1 ==> IsSmall(w[letters + digits]))
  }

  /** The first whole word that looks like a module code. */
  function BareCode(s: string): Option<string>
    decreases |s|
  {
    if s == [] then None
    else if !IsWord(s[0]) then BareCode(s[1..])
    else
      var w := s[..WordLength(s)];
      if IsCode(w, 1, 2) || IsCode(w, 1, 3) || IsCode(w, 2, 2) || IsCode(w, 2, 3) then Some(w)
      else BareCode(s[WordLength(s)..])
  }

  /** _extract_module_code */
  function ModuleCode(text: string): Option<string> {
    var s := Lower(text);
    if BracketedCode(s).Some? then BracketedCode(s) else BareCode(s)
  }

  function FirstBlank(s: string): (n: nat)
    ensures n <= |s|
  {
    if s == [] || s[0] == ' ' then 0 else 1 + FirstBlank(s[1..])
  }

  /** The non-empty pieces between blanks.  Normalising has removed the brackets that the source strips off. */
  function Tokens(s: string): set<string>
    decreases |s|
  {
    var n := FirstBlank(s);
    (if n == 0 then {} else {s[..n]}) + if n == |s| then {} else Tokens(s[n + 1..])
  }

  /** Shared tokens over all tokens. */
  function Overlap(a: set<string>, b: set<string>): (r: real)
    ensures 0.0 <= r <= 1.0
  {
    if a == {} || b == {} then 0.0
    else
      SharedAreFewer(a, b);
      ShareIsAtMostOne(|a * b|, |a + b|);
      |a * b| as real / |a + b| as real
  }

  lemma ShareIsAtMostOne(n: nat, d: nat)
    requires n <= d && 0 < d
    ensures 0.0 <= n as real / d as real <= 1.0
    ensures n > 0 <==> n as real / d as real > 0.0
  {
    var q := n as real / d as real;
    assert q * d as real == n as real;
  }

  lemma SharedAreFewer<T>(a: set<T>, b: set<T>)
    ensures |a * b| <= |a| <= |a + b|
    ensures a != {} ==> |a + b| > 0
  {
    assert |a| == |a * b| + |a - b| by {
      assert a == a * b + (a - b);
    }
    assert |a + b| == |a| + |b - a| by {
      assert a + b == a + (b - a);
    }
  }

  /** What the comparison of one option with the target finds. */
  datatype Findings = Findings(exact: bool, substring: bool, sameCode: bool, overlap: real, prefix: bool)

  function Compare(target: string, option: string): (f: Findings)
    ensures 0.0 <= f.overlap <= 1.0
  {
    var t, o := Normalize(target), Normalize(option);
    Findings(o == t,
             t != "" && o != "" && (Contains(o, t) || Contains(t, o)),
             ModuleCode(target).Some? && ModuleCode(target) == ModuleCode(option),
             Overlap(Tokens(t), Tokens(o)),
             t != "" && o != "" && t <= o)
  }

  function Clamp(score: real): real {
    if score < 0.0 then 0.0 else if score > 1.0 then 1.0 else score
  }

  function ScoreOf(f: Findings): (s: real)
    ensures 0.0 <= s <= 1.0
  {
    Clamp((if f.exact then 0.62 else 0.0) + (if f.substring then 0.34 else 0.0) + (if f.sameCode then 0.26 else 0.0)
          + (if f.overlap > 0.0 then f.overlap * 0.30 else 0.0) + (if f.prefix then 0.08 else 0.0))
  }

  function Score(target: string, option: string): (s: real)
    ensures 0.0 <= s <= 1.0
  {
    ScoreOf(Compare(target, option))
  }

  datatype Reason = ExactNormalizedMatch | SubstringMatch | ModuleCodeMatch | TokenOverlap(share: real) | PrefixMatch

  /** A reason is given exactly for what was found, and the score is 0 exactly without any. */
  predicate Explains(reasons: seq<Reason>, f: Findings) {
    && (ExactNormalizedMatch in reasons <==> f.exact)
    && (SubstringMatch in reasons <==> f.substring)
    && (ModuleCodeMatch in reasons <==> f.sameCode)
    && (TokenOverlap(f.overlap) in reasons <==> f.overlap > 0.0)
    && (PrefixMatch in reasons <==> f.prefix)
    && (reasons == [] <==> ScoreOf(f) == 0.0)
  }

  method ScoreOption(target: string, option: string) returns (r: Ranked, reasons: seq<Reason>)
    ensures r == Ranked(option, Score(target, option))
    ensures Explains(reasons, Compare(target, option))
  {
    var f := Compare(target, option);
    var score;
    score, reasons := AddUp(f);
    r := Ranked(option, score);
  }

  method AddUp(f: Findings) returns (score: real, reasons: seq<Reason>)
    requires 0.0 <= f.overlap <= 1.0
    ensures score == ScoreOf(f) && Explains(reasons, f)
  {
    score, reasons := 0.0, [];
    if f.exact {
      score, reasons := score + 0.62, reasons + [ExactNormalizedMatch];
    }
    if f.substring {
      score, reasons := score + 0.34, reasons + [SubstringMatch];
    }
    if f.sameCode {
      score, reasons := score + 0.26, reasons + [ModuleCodeMatch];
    }
    if f.overlap > 0.0 {
      score, reasons := score + f.overlap * 0.30, reasons + [TokenOverlap(f.overlap)];
    }
    if f.prefix {
      score, reasons := score + 0.08, reasons + [PrefixMatch];
    }
    score := Clamp(score);
  }

  /** There is a token overlap exactly when a token is shared. */
  lemma OverlapIffShared(a: set<string>, b: set<string>)
    ensures Overlap(a, b) > 0.0 <==> a * b != {}
  {
    SharedAreFewer(a, b);
    if a != {} && b != {} {
      ShareIsAtMostOne(|a * b|, |a + b|);
    }
  }

  /** An option that differs from the target only in case, spacing and punctuation scores 1. */
  lemma ExactMatchScoresFull(target: string, option: string)
    requires Normalize(option) == Normalize(target) && Tokens(Normalize(target)) != {}
    ensures Score(target, option) == 1.0
  {
    var t := Normalize(target);
    assert t != "" by {
      assert Tokens("") == {};
    }
    assert t <= t[0..];
    assert Tokens(t) * Tokens(t) == Tokens(t) && Tokens(t) + Tokens(t) == Tokens(t);
  }

  // ---------------------------------------------------------------- what the comparison does not see

  /** The same character, or the same letter in another case. */
  predicate SameLetter(c: char, d: char) {
    || c == d
    || ('A' <= c <= 'Z' && d as int == c as int + 32)
    || ('A' <= d <= 'Z' && c as int == d as int + 32)
  }

  predicate SameLetters(a: string, b: string) {
    |a| == |b| && forall i :: 0 <= i < |a| ==> SameLetter(a[i], b[i])
  }

  lemma {:induction false} LowerIgnoresCase(a: string, b: string)
    requires SameLetters(a, b)
    ensures Lower(a) == Lower(b)
    decreases |a|
  {
    if a != [] {
      assert SameLetter(a[0], b[0]);
      LowerIgnoresCase(a[1..], b[1..]);
    }
  }

  /** Case plays no part, in the target or in the option. */
  lemma CaseIsIgnored(target: string, option: string, target': string, option': string)
    requires SameLetters(target, target') && SameLetters(option, option')
    ensures Compare(target, option) == Compare(target', option') && Score(target, option) == Score(target', option')
  {
    LowerIgnoresCase(target, target');
    LowerIgnoresCase(option, option');
  }

  lemma {:induction false} LowerAppend(a: string, b: string)
    ensures Lower(a + b) == Lower(a) + Lower(b) && |Lower(a)| == |a|
    decreases |a|
  {
    if a == [] {
      assert a + b == b;
    } else {
      assert (a + b)[0] == a[0] && (a + b)[1..] == a[1..] + b;
      LowerAppend(a[1..], b);
      AppendAssoc([LowerChar(a[0])], Lower(a[1..]), Lower(b));
    }
  }

  lemma {:induction false} TrimLeftThenSpace(s: string, c: char)
    requires IsSpace(c)
    ensures TrimRight(TrimLeft(s + [c])) == TrimRight(TrimLeft(s))
    decreases |s|
  {
    if s == [] {
      assert s + [c] == [c] && TrimLeft([c]) == [];
    } else if IsSpace(s[0]) {
      assert (s + [c])[0] == s[0] && (s + [c])[1..] == s[1..] + [c];
      TrimLeftThenSpace(s[1..], c);
    } else {
      assert (s + [c])[0] == s[0] && (s + [c])[..|s|] == s;
    }
  }

  /** White space around a text plays no part. */
  lemma SurroundingSpaceIsIgnored(s: string, c: char)
    requires c in {' ', '\t', '\n', '\r'}
    ensures Normalize([c] + s) == Normalize(s) && Normalize(s + [c]) == Normalize(s)
  {
    LowerAppend([c], s);
    LowerAppend(s, [c]);
    assert Lower([c]) == [c];
    assert ([c] + Lower(s))[1..] == Lower(s);
    TrimLeftThenSpace(Lower(s), c);
  }

  lemma {:induction false} LowerHasNoCapitals(s: string)
    ensures forall c <- Lower(s) :: !('A' <= c <= 'Z')
  {
    if s != [] {
      LowerHasNoCapitals(s[1..]);
    }
  }

  lemma {:induction false} CollapseHasBlanksOnly(s: string)
    ensures forall c <- Collapse(s) :: (c in s && !IsSpace(c)) || c == ' '
    ensures forall i :: 0 <= i < |Collapse(s)| - 1 ==> !(Collapse(s)[i] == ' ' && Collapse(s)[i + 1] == ' ')
    ensures s != [] && !IsSpace(s[0]) ==> Collapse(s) != [] && Collapse(s)[0] == s[0]
    ensures s == [] ==> Collapse(s) == []
    decreases |s|
  {
    if s != [] {
      CollapseHasBlanksOnly(s[1..]);
    }
  }

  lemma {:induction false} KeepsWordsOnly(s: string)
    ensures forall c <- KeepWords(s) :: c in s && (IsWord(c) || IsSpace(c) || c == '-')
  {
    if s != [] {
      KeepsWordsOnly(s[1..]);
    }
  }

  lemma {:induction false} TrimsPart(s: string)
    ensures forall c <- TrimRight(s) :: c in s
    ensures forall c <- TrimLeft(s) :: c in s
    decreases |s|
  {
    if s != [] {
      TrimsPart(s[1..]);
      TrimsPart(s[..|s| - 1]);
    }
  }

  /** A normalised text has small letters, digits, underscores, hyphens and blanks only. */
  lemma NormalizedCharacters(s: string)
    ensures forall c <- Normalize(s) :: 'a' <= c <= 'z' || '0' <= c <= '9' || c in {'_', '-', ' '}
  {
    var low := Lower(s);
    LowerHasNoCapitals(s);
    TrimsPart(low);
    TrimsPart(TrimLeft(low));
    CollapseHasBlanksOnly(Strip(low));
    KeepsWordsOnly(Collapse(Strip(low)));
  }

  predicate NormalCharacter(c: char) {
    'a' <= c <= 'z' || '0' <= c <= '9' || c == '_' || c == '-' || c == ' '
  }

  /** The characters of a normalised text, one blank at a time. */
  predicate Normal(s: string) {
    && (forall i :: 0 <= i < |s| ==> NormalCharacter(s[i]))
    && (forall i :: 0 <= i < |s| - 1 ==> s[i] != ' ' || s[i + 1] != ' ')
  }

  lemma {:induction false} NormalStays(s: string)
    requires Normal(s)
    ensures Lower(s) == s && Collapse(s) == s && KeepWords(s) == s
  {
    if s != [] {
      NormalStays(s[1..]);
      assert NormalCharacter(s[0]) && [s[0]] + s[1..] == s;
      assert |s| > 1 ==> NormalCharacter(s[1]);
    }
  }

  /** What is normal already is left alone, hyphens and single blanks included. */
  lemma NormalTextStays(s: string)
    requires Normal(s) && (s != [] ==> s[0] != ' ' && s[|s| - 1] != ' ')
    ensures Normalize(s) == s
  {
    NormalStays(s);
    assert s != [] ==> NormalCharacter(s[0]) && NormalCharacter(s[|s| - 1]);
  }

  /** The characters of a text are looked at one by one. */
  lemma {:induction false} KeepWordsAppend(a: string, b: string)
    ensures KeepWords(a + b) == KeepWords(a) + KeepWords(b)
    decreases |a|
  {
    if a == [] {
      assert a + b == b;
    } else {
      assert (a + b)[0] == a[0] && (a + b)[1..] == a[1..] + b;
      KeepWordsAppend(a[1..], b);
      AppendAssoc(if IsWord(a[0]) || IsSpace(a[0]) || a[0] == '-' then [a[0]] else [], KeepWords(a[1..]), KeepWords(b));
    }
  }

  /** Of a single character: word characters, white space and hyphens stay, all others go. */
  lemma OnlyPunctuationGoes(c: char)
    ensures var stays := 'a' <= c <= 'z' || 'A' <= c <= 'Z' || '0' <= c <= '9' || c in {'_', '-'} || IsSpace(c);
            KeepWords([c]) == if stays then [c] else []
  {
    assert [c][1..] == [];
  }

  /** One text with something before and behind it is the other. */
  ghost predicate Around(s: string, part: string) {
    exists before, after :: s == before + part + after
  }

  ghost predicate Continues(s: string, start: string) {
    exists after :: s == start + after
  }

  lemma ContainsMeansAround(s: string, part: string)
    ensures Contains(s, part) <==> Around(s, part)
    ensures part <= s <==> Continues(s, part)
  {
    if Contains(s, part) {
      var i :| 0 <= i <= |s| && part <= s[i..];
      assert s == s[..i] + part + s[i..][|part|..];
    }
    if before, after :| s == before + part + after {
      assert s[|before|..] == part + after;
    }
    if part <= s {
      assert s == part + s[|part|..];
    }
  }

  /** What the comparison finds, said of the normalised texts. */
  lemma FindingsMean(target: string, option: string)
    ensures var f, t, o := Compare(target, option), Normalize(target), Normalize(option);
            && (f.exact <==> t == o)
            && (f.substring <==> t != "" && o != "" && (Around(o, t) || Around(t, o)))
            && (f.prefix <==> t != "" && o != "" && Continues(o, t))
  {
    ContainsMeansAround(Normalize(option), Normalize(target));
    ContainsMeansAround(Normalize(target), Normalize(option));
  }

  /** A code between brackets is found, whatever else the text says behind it. */
  lemma {:induction false} BracketedCodeIsFound(before: string, code: string, after: string)
    requires '[' !in before && code != "" && forall c <- code :: IsSmall(c) || IsDigit(c)
    ensures BracketedCode(before + ("[" + code + "]" + after)) == Some(code)
    decreases |before|
  {
    var tail := "[" + code + "]" + after;
    if before == [] {
      assert before + tail == tail;
      assert tail[1..] == code + ("]" + after);
      AlnumStops(code, "]" + after);
      assert tail[1..][..|code|] == code && tail[1..][|code|] == ']';
    } else {
      assert (before + tail)[0] == before[0] && before[0] in before;
      assert (before + tail)[1..] == before[1..] + tail;
      assert forall c <- before[1..] :: c in before;
      BracketedCodeIsFound(before[1..], code, after);
    }
  }

  lemma {:induction false} AlnumStops(code: string, rest: string)
    requires forall c <- code :: IsSmall(c) || IsDigit(c)
    requires rest != "" && !IsSmall(rest[0]) && !IsDigit(rest[0])
    ensures AlnumLength(code + rest) == |code|
    decreases |code|
  {
    if code == [] {
      assert code + rest == rest;
    } else {
      assert (code + rest)[0] == code[0] && code[0] in code && (code + rest)[1..] == code[1..] + rest;
      assert forall c <- code[1..] :: c in code;
      AlnumStops(code[1..], rest);
    }
  }

  lemma {:induction false} WordStops(w: string, rest: string)
    requires forall c <- w :: IsWord(c)
    requires rest == "" || !IsWord(rest[0])
    ensures WordLength(w + rest) == |w|
    decreases |w|
  {
    if w == [] {
      assert w + rest == rest;
    } else {
      assert (w + rest)[0] == w[0] && w[0] in w && (w + rest)[1..] == w[1..] + rest;
      assert forall c <- w[1..] :: c in w;
      WordStops(w[1..], rest);
    }
  }

  /** A bare word of one or two letters, two or three digits and perhaps a letter is a code; no other word is. */
  lemma BareWordIsCodeIff(w: string, rest: string)
    requires w != "" && (forall c <- w :: IsWord(c)) && (rest == "" || !IsWord(rest[0]))
    ensures BareCode(w + rest) ==
            if exists letters, digits | 1 <= letters <= 2 && 2 <= digits <= 3 :: IsCode(w, letters, digits)
            then Some(w) else BareCode(rest)
  {
    WordStops(w, rest);
    assert (w + rest)[0] in w && (w + rest)[..|w|] == w && (w + rest)[|w|..] == rest;
  }

  /** Nothing found scores nothing; below the cap of 1 each finding adds its weight, and none ever takes away. */
  lemma EachFindingAdds(f: Findings)
    requires 0.0 <= f.overlap <= 1.0
    ensures ScoreOf(Findings(false, false, false, 0.0, false)) == 0.0
    ensures !f.exact ==> ScoreOf(f.(exact := true)) == AtMostOne(ScoreOf(f) + 0.62)
    ensures !f.substring ==> ScoreOf(f.(substring := true)) == AtMostOne(ScoreOf(f) + 0.34)
    ensures !f.sameCode ==> ScoreOf(f.(sameCode := true)) == AtMostOne(ScoreOf(f) + 0.26)
    ensures f.overlap == 0.0 ==>
              forall share: real | 0.0 <= share <= 1.0 ::
                ScoreOf(f.(overlap := share)) == AtMostOne(ScoreOf(f) + 0.30 * share)
    ensures !f.prefix ==> ScoreOf(f.(prefix := true)) == AtMostOne(ScoreOf(f) + 0.08)
  {
  }

  function AtMostOne(x: real): real {
    if x > 1.0 then 1.0 else x
  }

  // ---------------------------------------------------------------- ranking

  function RankChoice(target: string, option: string): Ranked {
    Ranked(option, Score(target, option))
  }

  function Scorer(target: string): string -> Ranked {
    option => RankChoice(target, option)
  }

  function Scored(target: string, choices: seq<string>): (r: seq<Ranked>)
    ensures |r| == |choices|
  {
    Sorting.Image(choices, Scorer(target))
  }

  /** The key of the sort: higher scores come first, and equal ones keep their order. */
  function Shortfall(r: Ranked): real {
    0.0 - r.score
  }

  function Rank(target: string, choices: seq<string>): seq<Ranked> {
    Sorting.Sort(Scored(target, choices), Shortfall)
  }

  function Cleaned(choices: seq<string>): seq<string> {
    if choices == [] then []
    else (if IsBlank(choices[0]) then [] else [choices[0]]) + Cleaned(choices[1..])
  }

  function DecideRanked(c: Config, ranked: seq<Ranked>): Decision
    requires ranked != []
  {
    if ranked[0].score < c.minConfidence then Decision(None, true, ranked[0].score, ranked)
    else if |ranked| > 1 && ranked[0].score - ranked[1].score < c.ambiguityGap
            && ranked[1].score >= c.SecondThreshold() then
      Decision(None, true, ranked[0].score, ranked)
    else Decision(Some(ranked[0].option), false, ranked[0].score, ranked)
  }

  function Decide(c: Config, target: Text, choices: seq<Text>): Decision {
    var ranked := Rank(Strip(target), Cleaned(choices));
    if IsBlank(target) || ranked == [] then Decision(None, true, 0.0, []) else DecideRanked(c, ranked)
  }

  ghost predicate Descending(s: seq<Ranked>) {
    forall i, j :: 0 <= i < j < |s| ==> s[i].score >= s[j].score
  }

  /** Ranking sorts the scored choices, and loses none. */
  lemma RankSorts(target: string, choices: seq<string>)
    ensures Descending(Rank(target, choices)) && |Rank(target, choices)| == |choices|
    ensures multiset(Rank(target, choices)) == multiset(Scored(target, choices))
  {
    Sorting.SortOrders(Scored(target, choices), Shortfall);
    var r := Rank(target, choices);
    assert forall i, j :: 0 <= i < j < |r| ==> Shortfall(r[i]) <= Shortfall(r[j]);
  }

  lemma {:induction false} CleanedIgnoresOrder(choices: seq<string>)
    ensures forall x :: multiset(Cleaned(choices))[x] == if IsBlank(x) then 0 else multiset(choices)[x]
  {
    if choices != [] {
      CleanedIgnoresOrder(choices[1..]);
      assert choices == [choices[0]] + choices[1..];
    }
  }

  /** The ranked scores are the same whatever order the choices come in. */
  lemma ScoresIgnoreOrder(target: string, a: seq<string>, b: seq<string>)
    requires multiset(a) == multiset(b)
    ensures |Rank(target, a)| == |Rank(target, b)|
    ensures forall k :: 0 <= k < |Rank(target, a)| ==> Rank(target, a)[k].score == Rank(target, b)[k].score
  {
    Sorting.ImageIgnoresOrder(a, b, Scorer(target));
    Sorting.KeysIgnoreOrder(Scored(target, a), Scored(target, b), Shortfall);
    var x, y := Rank(target, a), Rank(target, b);
    forall k | 0 <= k < |x|
      ensures x[k].score == y[k].score
    {
      assert Shortfall(x[k]) == Shortfall(y[k]);
    }
  }

  lemma CleanedSame(a: seq<string>, b: seq<string>)
    requires multiset(a) == multiset(b)
    ensures multiset(Cleaned(a)) == multiset(Cleaned(b))
  {
    CleanedIgnoresOrder(a);
    CleanedIgnoresOrder(b);
  }

  // ---------------------------------------------------------------- what a decision guarantees

  lemma AskingDependsOnScores(c: Config, x: seq<Ranked>, y: seq<Ranked>)
    requires x != [] && |x| == |y| && forall k :: 0 <= k < |x| ==> x[k].score == y[k].score
    ensures DecideRanked(c, x).requiresHuman == DecideRanked(c, y).requiresHuman
    ensures DecideRanked(c, x).confidence == DecideRanked(c, y).confidence
  {
    assert x[0].score == y[0].score;
    assert |x| > 1 ==> x[1].score == y[1].score;
  }

  /** Whether a human is asked, and the confidence, never depend on the order of the choices. */
  lemma AskingIgnoresOrder(c: Config, target: Text, a: seq<Text>, b: seq<Text>)
    requires multiset(a) == multiset(b)
    ensures Decide(c, target, a).requiresHuman == Decide(c, target, b).requiresHuman
    ensures Decide(c, target, a).confidence == Decide(c, target, b).confidence
  {
    CleanedSame(a, b);
    var t, ca, cb := Strip(target), Cleaned(a), Cleaned(b);
    ScoresIgnoreOrder(t, ca, cb);
    if Rank(t, ca) != [] {
      AskingDependsOnScores(c, Rank(t, ca), Rank(t, cb));
    }
  }

  /**
   With a minimum confidence of at least 0.45, an option taken without a human scores strictly more than
   every other, and every other is out of reach: the gap below it, or under the second threshold.
   */
  lemma AutoSelectionIsUnique(c: Config, target: Text, choices: seq<Text>)
    requires c.Valid() && c.minConfidence >= 0.45
    ensures var d := Decide(c, target, choices);
            d.selected.Some? ==>
              && d.ranked != [] && d.selected == Some(d.ranked[0].option)
              && forall i :: 0 < i < |d.ranked| ==>
                   && d.ranked[i].score < d.ranked[0].score
                   && (d.ranked[0].score - d.ranked[i].score >= c.ambiguityGap || d.ranked[i].score < c.SecondThreshold())
  {
    RankSorts(Strip(target), Cleaned(choices));
    var r := Rank(Strip(target), Cleaned(choices));
    assert forall i :: 1 <= i < |r| ==> r[1].score >= r[i].score;
  }

  lemma {:induction false} NothingToChoose(choices: seq<string>)
    ensures Cleaned(choices) == [] <==> forall x <- choices :: IsBlank(x)
  {
    if choices != [] {
      NothingToChoose(choices[1..]);
      assert forall x :: x in choices <==> x == choices[0] || x in choices[1..];
    }
  }

  /** The best option is taken unless it has too little confidence, or the second is too close and good enough. */
  predicate TakenExactlyWhen(c: Config, ranked: seq<Ranked>, d: Decision)
    requires ranked != []
  {
    && d.ranked == ranked && d.confidence == ranked[0].score
    && (d.requiresHuman <==>
        || ranked[0].score < c.minConfidence
        || (|ranked| > 1 && ranked[0].score - ranked[1].score < c.ambiguityGap
            && ranked[1].score >= 0.45 && ranked[1].score >= c.minConfidence - 0.05))
    && d.selected == if d.requiresHuman then None else Some(ranked[0].option)
  }

  lemma RankedRules(c: Config, ranked: seq<Ranked>)
    requires ranked != []
    ensures TakenExactlyWhen(c, ranked, DecideRanked(c, ranked))
  {
  }

  /** When a human is asked: no target, nothing to choose from, too little confidence, or too close a second. */
  lemma AskedExactlyWhen(c: Config, target: Text, choices: seq<Text>)
    ensures var d := Decide(c, target, choices);
            var ranked := Rank(Strip(target), Cleaned(choices));
            if (forall x <- target :: IsSpace(x)) || (forall x <- choices :: IsBlank(x)) then
              d == Decision(None, true, 0.0, [])
            else ranked != [] && TakenExactlyWhen(c, ranked, d)
  {
    RankSorts(Strip(target), Cleaned(choices));
    NothingToChoose(choices);
    if Cleaned(choices) != [] {
      RankedRules(c, Rank(Strip(target), Cleaned(choices)));
    }
  }

  /** The same option is taken whatever order the choices come in. */
  predicate OrderIndependent(c: Config, target: Text, a: seq<Text>, b: seq<Text>) {
    Decide(c, target, a).selected == Decide(c, target, b).selected
  }

  lemma BestIsRankedToo(target: string, a: seq<string>, b: seq<string>) returns (j: nat)
    requires multiset(a) == multiset(b) && Rank(target, a) != []
    ensures |Rank(target, a)| == |Rank(target, b)| && j < |Rank(target, b)|
    ensures Rank(target, b)[j] == Rank(target, a)[0]
  {
    ScoresIgnoreOrder(target, a, b);
    Sorting.ImageIgnoresOrder(a, b, Scorer(target));
    RankSorts(target, a);
    RankSorts(target, b);
    var best := Rank(target, a)[0];
    assert best in multiset(Rank(target, b));
    j :| 0 <= j < |Rank(target, b)| && Rank(target, b)[j] == best;
  }

  /** Two rankings with the same scores, the best of one also ranked in the other. */
  lemma SelectionDependsOnBest(c: Config, x: seq<Ranked>, y: seq<Ranked>, j: nat)
    requires c.Valid() && c.minConfidence >= 0.45 && Descending(y)
    requires x != [] && |x| == |y| && forall k :: 0 <= k < |x| ==> x[k].score == y[k].score
    requires j < |y| && y[j] == x[0]
    ensures DecideRanked(c, x).selected == DecideRanked(c, y).selected
  {
    assert x[0].score == y[0].score;
    assert |x| > 1 ==> x[1].score == y[1].score;
    if j > 0 {
      assert y[1].score >= y[j].score;
    }
  }

  lemma SelectionIgnoresOrder(c: Config, target: Text, a: seq<Text>, b: seq<Text>)
    requires c.Valid() && c.minConfidence >= 0.45 && multiset(a) == multiset(b)
    ensures OrderIndependent(c, target, a, b)
  {
    CleanedSame(a, b);
    var t, ca, cb := Strip(target), Cleaned(a), Cleaned(b);
    ScoresIgnoreOrder(t, ca, cb);
    if Rank(t, ca) != [] {
      var j := BestIsRankedToo(t, ca, cb);
      RankSorts(t, cb);
      SelectionDependsOnBest(c, Rank(t, ca), Rank(t, cb), j);
    }
  }

  // ---------------------------------------------------------------- texts that tie below 0.45

  /** Small letters and single blanks: normalising leaves such a text alone and finds no code in it. */
  predicate Plain(s: string) {
    && s != "" && s[0] != ' ' && s[|s| - 1] != ' '
    && (forall i :: 0 <= i < |s| ==> IsSmall(s[i]) || s[i] == ' ')
    && (forall i :: 0 <= i < |s| - 1 ==> s[i] != ' ' || s[i + 1] != ' ')
  }

  lemma NormalizePlain(s: string)
    requires Plain(s)
    ensures Strip(s) == s && Normalize(s) == s && !IsBlank(s)
  {
    NormalTextStays(s);
    assert !IsSpace(s[0]) && s[0] in s;
  }

  lemma {:induction false} NoBrackets(s: string)
    requires forall i :: 0 <= i < |s| ==> IsSmall(s[i]) || s[i] == ' '
    ensures BracketedCode(s).None?
  {
    if s != [] {
      NoBrackets(s[1..]);
    }
  }

  lemma {:induction false} NoDigits(s: string)
    requires forall i :: 0 <= i < |s| ==> IsSmall(s[i]) || s[i] == ' '
    ensures BareCode(s).None?
    decreases |s|
  {
    if s != [] {
      if IsWord(s[0]) {
        var w := s[..WordLength(s)];
        forall letters, digits | 1 <= letters <= 2 && 2 <= digits <= 3
          ensures !IsCode(w, letters, digits)
        {
          if letters + digits <= |w| {
            assert !IsDigit(w[letters]);
          }
        }
        NoDigits(s[WordLength(s)..]);
      } else {
        NoDigits(s[1..]);
      }
    }
  }

  lemma PlainHasNoCode(s: string)
    requires Plain(s)
    ensures ModuleCode(s).None?
  {
    NormalStays(s);
    NoBrackets(s);
    NoDigits(s);
  }

  /** The words x, xx, xxx, ... */
  function Xs(n: nat): (w: string)
    ensures |w| == n && forall c <- w :: c == 'x'
  {
    if n == 0 then [] else ['x'] + Xs(n - 1)
  }

  /** The words of lengths `i` to `j`, with blanks between them. */
  function Words(i: nat, j: nat): string
    requires 0 < i <= j
    decreases j - i
  {
    if i == j then Xs(i) else Xs(i) + (" " + Words(i + 1, j))
  }

  lemma {:induction false} FirstBlankAfterWord(w: string, rest: string)
    requires ' ' !in w
    ensures FirstBlank(w) == |w| && FirstBlank(w + (" " + rest)) == |w|
  {
    var s := w + (" " + rest);
    if w == [] {
      assert s[0] == ' ';
    } else {
      FirstBlankAfterWord(w[1..], rest);
      assert s[0] == w[0] && s[1..] == w[1..] + (" " + rest);
      assert forall c <- w[1..] :: c in w;
    }
  }

  lemma TokensOfWord(w: string)
    requires ' ' !in w && w != ""
    ensures Tokens(w) == {w}
  {
    FirstBlankAfterWord(w, "");
    assert w[..|w|] == w;
  }

  lemma TokensAfterWord(w: string, rest: string)
    requires ' ' !in w && w != ""
    ensures Tokens(w + (" " + rest)) == {w} + Tokens(rest)
  {
    FirstBlankAfterWord(w, rest);
    var s := w + (" " + rest);
    assert s[..|w|] == w && s[|w| + 1..] == rest;
  }

  function XSet(i: nat, j: nat): set<string> {
    set n | i <= n <= j :: Xs(n)
  }

  lemma XSetCons(i: nat, j: nat)
    requires i <= j
    ensures XSet(i, j) == {Xs(i)} + XSet(i + 1, j) && Xs(i) !in XSet(i + 1, j)
    ensures i == j ==> XSet(i + 1, j) == {}
  {
  }

  lemma {:induction false} TokensOfWords(i: nat, j: nat)
    requires 0 < i <= j
    ensures Tokens(Words(i, j)) == XSet(i, j) && |XSet(i, j)| == j - i + 1
    decreases j - i
  {
    XSetCons(i, j);
    assert ' ' !in Xs(i);
    if i == j {
      TokensOfWord(Xs(i));
    } else {
      TokensOfWords(i + 1, j);
      TokensAfterWord(Xs(i), Words(i + 1, j));
    }
  }

  lemma {:induction false} WordsSplit(i: nat, k: nat, j: nat)
    requires 0 < i <= k < j
    ensures Words(i, j) == Words(i, k) + (" " + Words(k + 1, j))
    decreases k - i
  {
    if i < k {
      WordsSplit(i + 1, k, j);
      var more := " " + Words(k + 1, j);
      AppendAssoc(" ", Words(i + 1, k), more);
      AppendAssoc(Xs(i), " " + Words(i + 1, k), more);
    }
  }

  lemma WordsPrefix(k: nat, j: nat)
    requires 0 < k <= j
    ensures Words(1, k) <= Words(1, j)
  {
    if k < j {
      WordsSplit(1, k, j);
    }
  }

  lemma PlainAppend(w: string, s: string)
    requires w != "" && (forall c <- w :: IsSmall(c)) && Plain(s)
    ensures Plain(w + (" " + s))
  {
    var r := w + (" " + s);
    forall i | 0 <= i < |r|
      ensures IsSmall(r[i]) || r[i] == ' '
      ensures i < |r| - 1 ==> r[i] != ' ' || r[i + 1] != ' '
    {
      if i < |w| {
        assert r[i] in w;
      } else if i > |w| {
        assert r[i] == s[i - |w| - 1];
        assert i < |r| - 1 ==> r[i + 1] == s[i - |w|];
      } else {
        assert r[i + 1] == s[0];
      }
    }
    assert r[0] in w && r[|r| - 1] == s[|s| - 1];
  }

  lemma {:induction false} WordsPlain(i: nat, j: nat)
    requires 0 < i <= j
    ensures Plain(Words(i, j)) && Words(i, j)[0] == 'x'
    decreases j - i
  {
    assert Xs(i)[0] in Xs(i);
    if i == j {
      var w := Xs(i);
      assert forall k :: 0 <= k < |w| ==> w[k] in w;
    } else {
      WordsPlain(i + 1, j);
      PlainAppend(Xs(i), Words(i + 1, j));
    }
  }

  /** One word of its own, then all the target's words and some more. */
  function Longer(w: string, n: nat): string
    requires n > 0
  {
    w + (" " + Words(1, n))
  }

  /** `whole` is `part` and more, and one element besides. */
  lemma OverlapOfPart(part: set<string>, whole: set<string>, w: string)
    requires part != {} && part <= whole && w !in whole
    ensures Overlap(part, {w} + whole) == |part| as real / (|whole| + 1) as real
  {
    assert part * ({w} + whole) == part && part + ({w} + whole) == {w} + whole;
    assert |{w} + whole| == |whole| + 1;
  }

  lemma OwnWordIsNew(w: string, n: nat)
    requires w in {"a", "b"}
    ensures w !in XSet(1, n) && w != "" && ' ' !in w
  {
    assert w[0] != 'x' && w[0] in w;
    forall i | 1 <= i <= n
      ensures w != Xs(i)
    {
      assert w[0] !in Xs(i);
    }
  }

  lemma XSetGrows(k: nat, n: nat)
    requires 0 < k <= n
    ensures XSet(1, k) <= XSet(1, n) && Xs(1) in XSet(1, k)
  {
  }

  lemma LongerTokens(w: string, n: nat)
    requires w in {"a", "b"} && 0 < n
    ensures Tokens(Longer(w, n)) == {w} + XSet(1, n)
  {
    TokensOfWords(1, n);
    OwnWordIsNew(w, n);
    TokensAfterWord(w, Words(1, n));
  }

  lemma LongerOverlaps(w: string, k: nat, n: nat)
    requires w in {"a", "b"} && 0 < k <= n
    ensures Overlap(Tokens(Words(1, k)), Tokens(Longer(w, n))) == k as real / (n + 1) as real
  {
    var part, whole := XSet(1, k), XSet(1, n);
    TokensOfWords(1, k);
    TokensOfWords(1, n);
    LongerTokens(w, n);
    OwnWordIsNew(w, n);
    XSetGrows(k, n);
    assert |part| == k && |whole| == n;
    OverlapOfPart(part, whole, w);
  }

  lemma LongerPlain(w: string, n: nat)
    requires w in {"a", "b"} && 0 < n
    ensures Plain(Longer(w, n)) && Longer(w, n)[0] == w[0] != 'x'
    ensures Longer(w, n)[2..] == Words(1, n)
  {
    WordsPlain(1, n);
    PlainAppend(w, Words(1, n));
  }

  lemma LongerContains(w: string, k: nat, n: nat)
    requires w in {"a", "b"} && 0 < k <= n
    ensures Contains(Longer(w, n), Words(1, k)) && !(Words(1, k) <= Longer(w, n)) && Words(1, k) != Longer(w, n)
  {
    var t, o := Words(1, k), Longer(w, n);
    WordsPlain(1, k);
    LongerPlain(w, n);
    WordsPrefix(k, n);
    assert 0 <= 2 <= |o| && t <= o[2..];
  }

  /** A k-word target inside an option of n + 1 words, behind a word of the option's own. */
  lemma LongerCompares(w: string, k: nat, n: nat)
    requires w in {"a", "b"} && 0 < k <= n
    ensures Compare(Words(1, k), Longer(w, n)) == Findings(false, true, false, k as real / (n + 1) as real, false)
  {
    WordsPlain(1, k);
    LongerPlain(w, n);
    NormalizePlain(Words(1, k));
    NormalizePlain(Longer(w, n));
    PlainHasNoCode(Words(1, k));
    LongerContains(w, k, n);
    LongerOverlaps(w, k, n);
  }

  lemma LongerScores(w: string, k: nat, n: nat)
    requires w in {"a", "b"} && 0 < k <= n
    ensures Score(Words(1, k), Longer(w, n)) == ScoreOf(Findings(false, true, false, k as real / (n + 1) as real, false))
  {
    LongerCompares(w, k, n);
  }

  /** What a substring and a share of the words score. */
  lemma ScoreOfShare(share: real)
    requires 0.0 < share && 0.34 + share * 0.30 < 0.45
    ensures ScoreOf(Findings(false, true, false, share, false)) == 0.34 + share * 0.30
  {
  }

  /** For every confidence below 0.45 there are a count and a length whose score is at least that and still below 0.45. */
  lemma ShareBelow(m: real) returns (k: nat, n: nat)
    requires m < 0.45
    ensures 0 < k <= n && m <= 0.34 + (k as real / (n + 1) as real) * 0.30 < 0.45
  {
    var g := 0.45 - m;
    var j := (0.01 / g).Floor + 1;
    assert j as real > 0.01 / g;
    assert j >= 1;
    k, n := 11 * j - 1, 30 * j - 1;
    ShareOf(j);
    EnoughWords(j as real, g);
  }

  lemma EnoughWords(j: real, g: real)
    requires g > 0.0 && j > 0.0 && j > 0.01 / g
    ensures 0.01 / j <= g
  {
    var q, p := 0.01 / g, 0.01 / j;
    assert q * g == 0.01 && p * j == 0.01;
    MultiplyLess(q, j, g);
    if p > g {
      MultiplyLess(g, p, j);
    }
  }

  lemma MultiplyLess(a: real, b: real, c: real)
    requires a < b && c > 0.0
    ensures a * c < b * c
  {
  }

  lemma ShareOf(j: nat)
    requires j >= 1
    ensures (11 * j - 1) as real / (30 * j) as real * 0.30 == 0.11 - 0.01 / j as real
    ensures 0.01 / j as real > 0.0
  {
    var r := j as real;
    assert (11 * j - 1) as real == 11.0 * r - 1.0 && (30 * j) as real == 30.0 * r;
    var q := (11.0 * r - 1.0) / (30.0 * r);
    assert q * (30.0 * r) == 11.0 * r - 1.0;
    var p := 0.01 / r;
    assert p * r == 0.01;
    assert (q * 0.30 + p) * r == 0.11 * r;
  }

  lemma CleanedPair(x: string, y: string)
    requires !IsBlank(x) && !IsBlank(y)
    ensures Cleaned([x, y]) == [x, y]
  {
    assert [x, y][1..] == [y] && [y][1..] == [];
    assert Cleaned([y]) == [y];
  }

  lemma TiedPairKeepsOrder(target: string, x: string, y: string)
    requires Score(target, x) == Score(target, y)
    ensures Rank(target, [x, y]) == [RankChoice(target, x), RankChoice(target, y)]
  {
    var r: Ranked, q: Ranked := RankChoice(target, x), RankChoice(target, y);
    ScoredPair(target, x, y);
    assert Shortfall(r) <= Shortfall(q);
    Sorting.PairStays(r, q, Shortfall);
  }

  lemma ScoredPair(target: string, x: string, y: string)
    ensures Scored(target, [x, y]) == [RankChoice(target, x), RankChoice(target, y)]
  {
    assert [x, y][1..] == [y] && [y][1..] == [];
    assert Scored(target, [y]) == [RankChoice(target, y)];
  }

  lemma TiedRankTakesFirst(c: Config, r: Ranked, q: Ranked)
    requires c.Valid() && c.minConfidence <= r.score == q.score < 0.45
    ensures DecideRanked(c, [r, q]).selected == Some(r.option)
  {
  }

  /** Two options with the same score, enough for the confidence but below 0.45: the first one listed is taken. */
  lemma TiedPairTakesFirst(c: Config, target: Text, x: Text, y: Text)
    requires c.Valid() && !IsBlank(target) && !IsBlank(x) && !IsBlank(y)
    requires c.minConfidence <= Score(Strip(target), x) == Score(Strip(target), y) < 0.45
    ensures Decide(c, target, [x, y]).selected == Some(x)
  {
    CleanedPair(x, y);
    TiedPairKeepsOrder(Strip(target), x, y);
    TiedRankTakesFirst(c, RankChoice(Strip(target), x), RankChoice(Strip(target), y));
  }

  lemma PlainIsText(s: string)
    requires Plain(s)
    ensures forall c <- s :: c as int < 128
  {
  }

  /** A target of k words, and options of n + 1 words that contain it. */
  function TargetOf(k: nat): (t: Text)
    requires 0 < k
    ensures t == Words(1, k) && !IsBlank(t) && Strip(t) == t
  {
    WordsPlain(1, k);
    PlainIsText(Words(1, k));
    NormalizePlain(Words(1, k));
    Words(1, k)
  }

  function OptionOf(w: string, n: nat): (o: Text)
    requires w in {"a", "b"} && 0 < n
    ensures o == Longer(w, n) && !IsBlank(o) && o != "" && o[0] == w[0]
  {
    LongerPlain(w, n);
    PlainIsText(Longer(w, n));
    NormalizePlain(Longer(w, n));
    Longer(w, n)
  }

  lemma FirstOptionTaken(c: Config, k: nat, n: nat, v: string, w: string)
    requires c.Valid() && v in {"a", "b"} && w in {"a", "b"} && 0 < k <= n
    requires c.minConfidence <= 0.34 + (k as real / (n + 1) as real) * 0.30 < 0.45
    ensures Decide(c, TargetOf(k), [OptionOf(v, n), OptionOf(w, n)]).selected == Some(OptionOf(v, n))
  {
    var share := k as real / (n + 1) as real;
    ShareIsAtMostOne(k, n + 1);
    LongerScores(v, k, n);
    LongerScores(w, k, n);
    ScoreOfShare(share);
    TiedPairTakesFirst(c, TargetOf(k), OptionOf(v, n), OptionOf(w, n));
  }

  /** Below 0.45 two options with the same score can both pass, and then the first one is taken. */
  lemma LowConfidenceDependsOnOrder(c: Config) returns (target: Text, a: seq<Text>, b: seq<Text>)
    requires c.Valid() && c.minConfidence < 0.45
    ensures multiset(a) == multiset(b) && !OrderIndependent(c, target, a, b)
  {
    var k, n := ShareBelow(c.minConfidence);
    FirstOptionTaken(c, k, n, "a", "b");
    FirstOptionTaken(c, k, n, "b", "a");
    var x, y := OptionOf("a", n), OptionOf("b", n);
    assert x[0] == 'a' && y[0] == 'b';
    Sorting.PairSwaps(x, y);
    target, a, b := TargetOf(k), [x, y], [y, x];
  }

  /** The planner is independent of the order of its choices exactly from a minimum confidence of 0.45 on. */
  lemma OrderIndependentIff(c: Config)
    requires c.Valid()
    ensures (forall target, a, b :: multiset(a) == multiset(b) ==> OrderIndependent(c, target, a, b)) <==>
            c.minConfidence >= 0.45
  {
    if c.minConfidence >= 0.45 {
      forall target, a, b | multiset(a) == multiset(b)
        ensures OrderIndependent(c, target, a, b)
      {
        SelectionIgnoresOrder(c, target, a, b);
      }
    } else {
      var target, a, b := LowConfidenceDependsOnOrder(c);
    }
  }

  // ---------------------------------------------------------------- the method

  method DecideBranch(c: Config, target: Text, choices: seq<Text>) returns (d: Decision)
    requires c.Valid()
    ensures d == Decide(c, target, choices)
  {
    if IsBlank(target) {
      return Decision(None, true, 0.0, []);
    }
    var targetText := Strip(target);
    var cleaned := Cleaned(choices);
    RankSorts(targetText, cleaned);
    if cleaned == [] {
      return Decision(None, true, 0.0, []);
    }
    var ranked := Rank(targetText, cleaned);
    var best := ranked[0];
    if best.score < c.minConfidence {
      return Decision(None, true, best.score, ranked);
    }
    if |ranked| > 1 {
      var second := ranked[1];
      var gap := best.score - second.score;
      if gap < c.ambiguityGap && second.score >= c.SecondThreshold() {
        return Decision(None, true, best.score, ranked);
      }
    }
    d := Decision(Some(best.option), false, best.score, ranked);
  }
}
