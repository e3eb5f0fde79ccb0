/**
 * Rule-based reward for GSM8K responses (src/reward_score/gsm8k.py): the answer
 * extracted from an <answer>...</answer> block, the two tag-format checks, and
 * the scores that combine them. Scores are reals; the weights are the literal
 * constants of the source.
 */
module RewardScore {
  import opened Wrappers
  import opened Text

  const AnswerOpen := "<answer>"
  const AnswerClose := "</answer>"

  // ---------------------------------------------------------------------------
  // re.search(r'<answer>(.*?)</answer>', s, re.DOTALL)
  // ---------------------------------------------------------------------------

  /** `<answer>` at i and a `</answer>` at j after it: one way the pattern can match. */
  predicate AnswerSpan(s: string, i: nat, j: nat)
  {
    PrefixAt(s, i, AnswerOpen) && i + |AnswerOpen| <= j && PrefixAt(s, j, AnswerClose)
  }

  ghost predicate HasAnswerBlock(s: string)
  {
    exists i: nat, j: nat :: AnswerSpan(s, i, j)
  }

  /** The span re.search reports: the leftmost opening tag that is closed, and the first closing tag after it. */
  ghost predicate FirstSpan(s: string, i: nat, j: nat)
  {
    && AnswerSpan(s, i, j)
    && (forall i': nat, j': nat :: AnswerSpan(s, i', j') ==> i <= i')
    && (forall j': nat :: AnswerSpan(s, i, j') ==> j <= j')
  }

  /** group(1).strip().replace(",", "").replace("$", "") */
  function CleanAnswer(body: string): (r: string)
    ensures ',' !in r && '$' !in r
  {
    Remove(Remove(Strip(body), ','), '$')
  }

  /** extract_solution: None when the response has no answer block. */
  function ExtractSolution(s: string): (r: Option<string>)
    ensures r.None? <==> !HasAnswerBlock(s)
    ensures r.Some? ==> ',' !in r.value && '$' !in r.value
  {
    match Find(s, AnswerOpen, 0)
    case None => None
    case Some(i) =>
      match Find(s, AnswerClose, i + |AnswerOpen|)
      case None => None
      case Some(j) =>
        assert AnswerSpan(s, i, j);
        Some(CleanAnswer(s[i + |AnswerOpen|..j]))
  }

  /**
   * The search takes the leftmost `<answer>` that has a `</answer>` after it and,
   * being non-greedy, the first `</answer>` after that; the body between them is
   * stripped and loses its commas and dollar signs.
   */
  lemma ExtractSolutionSpan(s: string)
    requires HasAnswerBlock(s)
    ensures exists i: nat, j: nat :: FirstSpan(s, i, j) && ExtractSolution(s) == Some(CleanAnswer(s[i + |AnswerOpen|..j]))
  {
    var i := Find(s, AnswerOpen, 0).value;
    var j := Find(s, AnswerClose, i + |AnswerOpen|).value;
    assert AnswerSpan(s, i, j);
    forall i': nat, j': nat | AnswerSpan(s, i', j') ensures i <= i' {
      assert PrefixAt(s, i', AnswerOpen);
    }
    forall j': nat | AnswerSpan(s, i, j') ensures j <= j' {
      assert PrefixAt(s, j', AnswerClose);
    }
    assert FirstSpan(s, i, j);
  }

  // ---------------------------------------------------------------------------
  // Answer score
  // ---------------------------------------------------------------------------

  /** compute_score_answer: `matchScore` exactly when the extracted answer equals the ground truth. */
  function ScoreAnswer(s: string, groundTruth: string, matchScore: real): (r: real)
    ensures r == matchScore || r == 0.0
    ensures matchScore != 0.0 ==>
      (r == matchScore <==> HasAnswerBlock(s) && ExtractSolution(s).value == groundTruth)
    ensures !HasAnswerBlock(s) ==> r == 0.0
  {
    if ExtractSolution(s) == Some(groundTruth) then matchScore else 0.0
  }

  // ---------------------------------------------------------------------------
  // Tag-chain formats:  <t0>.*?</t0>\s*<t1>.*?</t1>\s* ... <tn>.*?</tn>\s*
  // searched anywhere in the response, with DOTALL. The trailing \s* can
  // always match the empty string, so it never decides whether a match exists.
  // ---------------------------------------------------------------------------

  function Open(tag: string): string { "<" + tag + ">" }

  function Close(tag: string): string { "</" + tag + ">" }

  const CoTTags: seq<string> := ["think", "answer"]
  const WHWMTags: seq<string> := ["what", "how", "why", "meaningful", "answer"]

  /** Reference semantics: the chain of `tags` matches starting exactly at k. */
  ghost predicate PatternAt(s: string, tags: seq<string>, k: nat)
    decreases |tags|, 1
  {
    && |tags| > 0
    && PrefixAt(s, k, Open(tags[0]))
    && exists e: nat :: k + |Open(tags[0])| <= e && ClosesAt(s, tags, e)
  }

  /** Reference semantics: the first tag of the chain is closed at e and the rest of the chain follows after whitespace. */
  ghost predicate ClosesAt(s: string, tags: seq<string>, e: nat)
    requires |tags| > 0
    decreases |tags|, 0
  {
    && PrefixAt(s, e, Close(tags[0]))
    && (|tags| == 1 ||
        exists c: nat :: e + |Close(tags[0])| <= c && AllSpace(s, e + |Close(tags[0])|, c) && PatternAt(s, tags[1..], c))
  }

  /** re.search finds the chain somewhere in s. */
  ghost predicate Matches(s: string, tags: seq<string>)
  {
    exists k: nat :: PatternAt(s, tags, k)
  }

  // The matcher. Whitespace before an opening tag is consumed in full, since
  // an opening tag starts with '<'; the closing tag is searched for at every
  // position after the opening one.

  predicate MatchAt(s: string, tags: seq<string>, k: nat)
    decreases |tags|, 2, 0
  {
    |tags| > 0 && PrefixAt(s, k, Open(tags[0])) && CloseFrom(s, tags, k + |Open(tags[0])|)
  }

  predicate CloseHere(s: string, tags: seq<string>, e: nat)
    requires |tags| > 0
    decreases |tags|, 0, 0
  {
    PrefixAt(s, e, Close(tags[0])) &&
    (|tags| == 1 || MatchAt(s, tags[1..], SkipSpace(s, e + |Close(tags[0])|)))
  }

  predicate CloseFrom(s: string, tags: seq<string>, e: nat)
    requires |tags| > 0
    decreases |tags|, 1, |s| - e
  {
    if e > |s| then false else CloseHere(s, tags, e) || CloseFrom(s, tags, e + 1)
  }

  predicate SearchFrom(s: string, tags: seq<string>, k: nat)
    decreases |s| - k
  {
    if k > |s| then false else MatchAt(s, tags, k) || SearchFrom(s, tags, k + 1)
  }

  /** A successful scan for the closing tag stops at a position where the rest of the chain matches. */
  lemma {:induction false} CloseFromWitness(s: string, tags: seq<string>, e0: nat) returns (e: nat)
    requires |tags| > 0 && CloseFrom(s, tags, e0)
    ensures e0 <= e && CloseHere(s, tags, e)
    decreases |s| - e0
  {
    if CloseHere(s, tags, e0) {
      e := e0;
    } else {
      e := CloseFromWitness(s, tags, e0 + 1);
    }
  }

  /** The scan for the closing tag finds every position where the rest of the chain matches. */
  lemma {:induction false} CloseFromReaches(s: string, tags: seq<string>, e0: nat, e: nat)
    requires |tags| > 0 && e0 <= e && CloseHere(s, tags, e)
    ensures CloseFrom(s, tags, e0)
    decreases e - e0
  {
    assert e <= |s|;
    if e0 < e {
      CloseFromReaches(s, tags, e0 + 1, e);
    }
  }

  lemma {:induction false} CloseHereCorrect(s: string, tags: seq<string>, e: nat)
    requires |tags| > 0
    ensures CloseHere(s, tags, e) <==> ClosesAt(s, tags, e)
    decreases |tags|, 0
  {
    if PrefixAt(s, e, Close(tags[0])) && |tags| > 1 {
      var p := e + |Close(tags[0])|;
      var c := SkipSpace(s, p);
      MatchAtCorrect(s, tags[1..], c);
      if ClosesAt(s, tags, e) {
        var c': nat :| p <= c' && AllSpace(s, p, c') && PatternAt(s, tags[1..], c');
        assert PrefixAt(s, c', Open(tags[1..][0]));
        assert s[c'] == Open(tags[1..][0])[0] == '<';
        RunEndUnique(s, p, c', IsSpace);
      }
      if CloseHere(s, tags, e) {
        assert p <= c && AllSpace(s, p, c) && PatternAt(s, tags[1..], c);
      }
    }
  }

  lemma PatternAtWitness(s: string, tags: seq<string>, k: nat) returns (e: nat)
    requires PatternAt(s, tags, k)
    ensures k + |Open(tags[0])| <= e && ClosesAt(s, tags, e)
  {
    e :| k + |Open(tags[0])| <= e && ClosesAt(s, tags, e);
  }

  lemma ClosesAtWitness(s: string, tags: seq<string>, e: nat) returns (c: nat)
    requires |tags| > 1 && ClosesAt(s, tags, e)
    ensures e + |Close(tags[0])| <= c && AllSpace(s, e + |Close(tags[0])|, c) && PatternAt(s, tags[1..], c)
  {
    c :| e + |Close(tags[0])| <= c && AllSpace(s, e + |Close(tags[0])|, c) && PatternAt(s, tags[1..], c);
  }

  /** The matcher agrees with the reference semantics at every start position. */
  lemma {:induction false} MatchAtCorrect(s: string, tags: seq<string>, k: nat)
    ensures MatchAt(s, tags, k) <==> PatternAt(s, tags, k)
    decreases |tags|, 1
  {
    if |tags| > 0 && PrefixAt(s, k, Open(tags[0])) {
      var e0 := k + |Open(tags[0])|;
      if MatchAt(s, tags, k) {
        var e := CloseFromWitness(s, tags, e0);
        CloseHereCorrect(s, tags, e);
        assert e0 <= e && ClosesAt(s, tags, e);
      }
      if PatternAt(s, tags, k) {
        var e := PatternAtWitness(s, tags, k);
        CloseHereCorrect(s, tags, e);
        CloseFromReaches(s, tags, e0, e);
      }
    }
  }

  lemma {:induction false} SearchFromWitness(s: string, tags: seq<string>, k: nat) returns (k': nat)
    requires SearchFrom(s, tags, k)
    ensures k <= k' && PatternAt(s, tags, k')
    decreases |s| - k
  {
    MatchAtCorrect(s, tags, k);
    if MatchAt(s, tags, k) {
      k' := k;
    } else {
      k' := SearchFromWitness(s, tags, k + 1);
    }
  }

  lemma {:induction false} SearchFromReaches(s: string, tags: seq<string>, k: nat, k': nat)
    requires k <= k' && PatternAt(s, tags, k')
    ensures SearchFrom(s, tags, k)
    decreases k' - k
  {
    assert PrefixAt(s, k', Open(tags[0]));
    if k < k' {
      SearchFromReaches(s, tags, k + 1, k');
    } else {
      MatchAtCorrect(s, tags, k);
    }
  }

  /** Trying every start position finds the chain exactly when it occurs. */
  lemma SearchCorrect(s: string, tags: seq<string>)
    ensures SearchFrom(s, tags, 0) <==> Matches(s, tags)
  {
    if SearchFrom(s, tags, 0) {
      var k := SearchFromWitness(s, tags, 0);
    }
    if Matches(s, tags) {
      var k: nat :| PatternAt(s, tags, k);
      SearchFromReaches(s, tags, 0, k);
    }
  }

  /** The format check: whether re.search finds the chain of `tags` in s. */
  function FormatMatches(s: string, tags: seq<string>): (b: bool)
    ensures b <==> Matches(s, tags)
  {
    SearchCorrect(s, tags);
    SearchFrom(s, tags, 0)
  }

  /** compute_score_CoT_format */
  function ScoreCoTFormat(s: string, matchScore: real): (r: real)
    ensures Matches(s, CoTTags) ==> r == matchScore
    ensures !Matches(s, CoTTags) ==> r == 0.0
  {
    if FormatMatches(s, CoTTags) then matchScore else 0.0
  }

  /** compute_score_WHWM_format */
  function ScoreWHWMFormat(s: string, matchScore: real): (r: real)
    ensures Matches(s, WHWMTags) ==> r == matchScore
    ensures !Matches(s, WHWMTags) ==> r == 0.0
  {
    if FormatMatches(s, WHWMTags) then matchScore else 0.0
  }

  /**
   * The CoT format in positions: a `<think>` at a, a `</think>` at b after it,
   * only whitespace up to an `<answer>` at c, and a `</answer>` at d after that.
   */
  ghost predicate CoTLayout(s: string, a: nat, b: nat, c: nat, d: nat)
  {
    && PrefixAt(s, a, "<think>") && a + 7 <= b && PrefixAt(s, b, "</think>")
    && AllSpace(s, b + 8, c)
    && PrefixAt(s, c, "<answer>") && c + 8 <= d && PrefixAt(s, d, "</answer>")
  }

  lemma CoTTagsSpelled()
    ensures Open(CoTTags[0]) == "<think>" && Close(CoTTags[0]) == "</think>"
    ensures CoTTags[1..] == ["answer"]
    ensures Open(CoTTags[1..][0]) == "<answer>" && Close(CoTTags[1..][0]) == "</answer>"
  {
  }

  lemma CoTFormatFromLayout(s: string, a: nat, b: nat, c: nat, d: nat)
    requires CoTLayout(s, a, b, c, d)
    ensures Matches(s, CoTTags)
  {
    CoTTagsSpelled();
    var tail := CoTTags[1..];
    assert ClosesAt(s, tail, d);
    assert PatternAt(s, tail, c);
    assert ClosesAt(s, CoTTags, b);
    assert PatternAt(s, CoTTags, a);
  }

  /** A two-tag chain that matches at some position, taken apart into its four tag positions. */
  lemma TwoTagWitness(s: string, tags: seq<string>) returns (a: nat, b: nat, c: nat, d: nat)
    requires |tags| == 2 && Matches(s, tags)
    ensures PrefixAt(s, a, Open(tags[0])) && a + |Open(tags[0])| <= b && PrefixAt(s, b, Close(tags[0]))
    ensures AllSpace(s, b + |Close(tags[0])|, c)
    ensures PrefixAt(s, c, Open(tags[1])) && c + |Open(tags[1])| <= d && PrefixAt(s, d, Close(tags[1]))
  {
    var tail := tags[1..];
    assert tail[0] == tags[1];
    a :| PatternAt(s, tags, a);
    b := PatternAtWitness(s, tags, a);
    c := ClosesAtWitness(s, tags, b);
    d := PatternAtWitness(s, tail, c);
  }

  lemma CoTLayoutFromFormat(s: string) returns (a: nat, b: nat, c: nat, d: nat)
    requires Matches(s, CoTTags)
    ensures CoTLayout(s, a, b, c, d)
  {
    CoTTagsSpelled();
    a, b, c, d := TwoTagWitness(s, CoTTags);
  }

  /** compute_score_CoT_format's pattern, position by position. */
  lemma CoTFormatLayout(s: string)
    ensures Matches(s, CoTTags) <==> exists a, b, c, d :: CoTLayout(s, a, b, c, d)
  {
    if Matches(s, CoTTags) {
      var a, b, c, d := CoTLayoutFromFormat(s);
    }
    if exists a, b, c, d :: CoTLayout(s, a, b, c, d) {
      var a, b, c, d :| CoTLayout(s, a, b, c, d);
      CoTFormatFromLayout(s, a, b, c, d);
    }
  }

  // ---------------------------------------------------------------------------
  // Combined scores: format weighs 1, answer weighs 2
  // ---------------------------------------------------------------------------

  /** compute_CoT_score: the data source and the extra information play no part. */
  function CoTScore<Info>(dataSource: string, s: string, groundTruth: string, extraInfo: Option<Info>): (r: real)
    ensures r == (if Matches(s, CoTTags) then 1.0 else 0.0)
               + (if HasAnswerBlock(s) && ExtractSolution(s).value == groundTruth then 2.0 else 0.0)
    ensures r == 0.0 || r == 1.0 || r == 2.0 || r == 3.0
  {
    ScoreCoTFormat(s, 1.0) + ScoreAnswer(s, groundTruth, 2.0)
  }

  /** compute_WHWM_score: the data source and the extra information play no part. */
  function WHWMScore<Info>(dataSource: string, s: string, groundTruth: string, extraInfo: Option<Info>): (r: real)
    ensures r == (if Matches(s, WHWMTags) then 1.0 else 0.0)
               + (if HasAnswerBlock(s) && ExtractSolution(s).value == groundTruth then 2.0 else 0.0)
    ensures r == 0.0 || r == 1.0 || r == 2.0 || r == 3.0
  {
    ScoreWHWMFormat(s, 1.0) + ScoreAnswer(s, groundTruth, 2.0)
  }
}
