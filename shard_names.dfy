/**
 * Shard file names of an FSDP checkpoint (src/convert_fsdp_to_hf.py): the glob
 * that lists candidate files, the regular expression that reads the world size
 * and rank out of a name, and the name the loader looks for per rank.
 */
module ShardNames {
  import opened Wrappers
  import opened Text

  const Prefix := "model_world_size_"
  const Infix := "_rank_"
  const Suffix := ".pt"

  /** model_world_size_<x>_rank_<y>.pt */
  function GlobName(x: string, y: string): string
  {
    Prefix + x + Infix + y + Suffix
  }

  /** Reference semantics of Path.glob("model_world_size_*_rank_*.pt"): each `*` stands for any text. */
  ghost predicate GlobShaped(name: string)
  {
    exists x, y :: name == GlobName(x, y)
  }

  /** The glob test as a scan: the fixed prefix and suffix, with "_rank_" somewhere between them. */
  predicate GlobMatch(name: string)
  {
    && |name| >= |Prefix| + |Infix| + |Suffix|
    && name[..|Prefix|] == Prefix
    && name[|name| - |Suffix|..] == Suffix
    && Find(name[..|name| - |Suffix|], Infix, |Prefix|).Some?
  }

  lemma GlobNameParts(x: string, y: string)
    ensures var name := GlobName(x, y);
      && |name| == |Prefix| + |x| + |Infix| + |y| + |Suffix|
      && name[..|Prefix|] == Prefix
      && name[|Prefix|..|Prefix| + |x|] == x
      && name[|Prefix| + |x|..|Prefix| + |x| + |Infix|] == Infix
      && name[|Prefix| + |x| + |Infix|..|name| - |Suffix|] == y
      && name[|name| - |Suffix|..] == Suffix
  {
  }

  /** The scan accepts exactly the names the glob lists. */
  lemma GlobMatchCorrect(name: string)
    ensures GlobMatch(name) <==> GlobShaped(name)
  {
    if GlobMatch(name) {
      var body := name[..|name| - |Suffix|];
      var k := Find(body, Infix, |Prefix|).value;
      var x := name[|Prefix|..k];
      var y := name[k + |Infix|..|name| - |Suffix|];
      assert body[k..k + |Infix|] == Infix;
      assert name == name[..|Prefix|] + x + name[k..k + |Infix|] + y + name[|name| - |Suffix|..];
      assert name == GlobName(x, y);
    }
    if GlobShaped(name) {
      var x, y :| name == GlobName(x, y);
      GlobNameParts(x, y);
      var body := name[..|name| - |Suffix|];
      assert PrefixAt(body, |Prefix| + |x|, Infix);
    }
  }

  // ---------------------------------------------------------------------------
  // re.compile(r"model_world_size_(\d+)_rank_(\d+)\.pt").match(name)
  // ---------------------------------------------------------------------------

  datatype ShardId = ShardId(worldSize: nat, rank: nat)

  /**
   * Reference semantics of the match: the name begins with the pattern's text
   * for two non-empty digit strings. `match` anchors at the start only, so
   * anything may follow ".pt".
   */
  ghost predicate RegexMatch(name: string, wd: string, rd: string)
  {
    && |wd| > 0 && AllDigits(wd)
    && |rd| > 0 && AllDigits(rd)
    && GlobName(wd, rd) <= name
  }

  /** The end of the maximal digit run starting at i (the greedy `\d+`). */
  function DigitRunEnd(s: string, i: nat): nat
    requires i <= |s|
  {
    RunEnd(s, i, IsDigit)
  }

  /** A digit run followed by a non-digit ends exactly where DigitRunEnd says. */
  lemma DigitRunEndAt(s: string, i: nat, j: nat)
    requires i <= j < |s| && AllDigits(s[i..j]) && !IsDigit(s[j])
    ensures DigitRunEnd(s, i) == j
  {
    forall k | i <= k < j
      ensures IsDigit(s[k])
    {
      assert s[k] == s[i..j][k - i];
    }
    RunEndUnique(s, i, j, IsDigit);
  }

  /** The (world size, rank) that int() makes of the two groups, or None when the name does not match. */
  function ParseShardName(name: string): (r: Option<ShardId>)
  {
    if !PrefixAt(name, 0, Prefix) then None
    else
      var w := DigitRunEnd(name, |Prefix|);
      if w == |Prefix| || !PrefixAt(name, w, Infix) then None
      else
        var e := DigitRunEnd(name, w + |Infix|);
        if e == w + |Infix| || !PrefixAt(name, e, Suffix) then None
        else Some(ShardId(DecimalValue(name[|Prefix|..w]), DecimalValue(name[w + |Infix|..e])))
  }

  /** A name that begins with a glob name holds its prefix, its two texts, its infix and its suffix in place. */
  lemma GlobNameSlices(name: string, wd: string, rd: string)
    requires GlobName(wd, rd) <= name
    ensures var w := |Prefix| + |wd|; var e := w + |Infix| + |rd|;
      && PrefixAt(name, 0, Prefix) && name[|Prefix|..w] == wd
      && PrefixAt(name, w, Infix) && name[w + |Infix|..e] == rd
      && PrefixAt(name, e, Suffix)
  {
    var g := GlobName(wd, rd);
    GlobNameParts(wd, rd);
    assert name[..|g|] == g;
  }

  /** Two digit runs in place between the prefix, the infix and the suffix are what the parse reads. */
  lemma ParseAt(name: string, w: nat, e: nat)
    requires |Prefix| < w && w + |Infix| < e
    requires PrefixAt(name, 0, Prefix) && PrefixAt(name, w, Infix) && PrefixAt(name, e, Suffix)
    requires AllDigits(name[|Prefix|..w]) && AllDigits(name[w + |Infix|..e])
    ensures ParseShardName(name) == Some(ShardId(DecimalValue(name[|Prefix|..w]), DecimalValue(name[w + |Infix|..e])))
  {
    assert name[w] == Infix[0];
    DigitRunEndAt(name, |Prefix|, w);
    assert name[e] == Suffix[0];
    DigitRunEndAt(name, w + |Infix|, e);
  }

  /** Every way the pattern matches gives the parse its two numbers. */
  lemma ParseRegexMatch(name: string, wd: string, rd: string)
    requires RegexMatch(name, wd, rd)
    ensures ParseShardName(name) == Some(ShardId(DecimalValue(wd), DecimalValue(rd)))
  {
    var w := |Prefix| + |wd|;
    var e := w + |Infix| + |rd|;
    GlobNameSlices(name, wd, rd);
    assert name[|Prefix|..w] == wd && name[w + |Infix|..e] == rd;
    ParseAt(name, w, e);
  }

  /** A name with the prefix, the infix at w and the suffix at e begins with the glob name of the two texts between them. */
  lemma GlobNamePrefix(name: string, w: nat, e: nat)
    requires |Prefix| <= w && w + |Infix| <= e
    requires PrefixAt(name, 0, Prefix) && PrefixAt(name, w, Infix) && PrefixAt(name, e, Suffix)
    ensures GlobName(name[|Prefix|..w], name[w + |Infix|..e]) <= name
  {
    var n := e + |Suffix|;
    assert name[..n] == name[..e] + name[e..n];
    assert name[..e] == name[..w + |Infix|] + name[w + |Infix|..e];
    assert name[..w + |Infix|] == name[..w] + name[w..w + |Infix|];
    assert name[..w] == name[..|Prefix|] + name[|Prefix|..w];
  }

  /** The positions a successful parse found: the end of each digit run, with the infix and the suffix after them. */
  lemma ParsedParts(name: string) returns (w: nat, e: nat)
    requires ParseShardName(name).Some?
    ensures |Prefix| < w && w + |Infix| < e
    ensures PrefixAt(name, 0, Prefix) && PrefixAt(name, w, Infix) && PrefixAt(name, e, Suffix)
    ensures AllDigits(name[|Prefix|..w]) && AllDigits(name[w + |Infix|..e])
    ensures ParseShardName(name).value == ShardId(DecimalValue(name[|Prefix|..w]), DecimalValue(name[w + |Infix|..e]))
  {
    w := DigitRunEnd(name, |Prefix|);
    e := DigitRunEnd(name, w + |Infix|);
  }

  /** A successful parse comes from a match of the pattern. */
  lemma ParseShardNameSound(name: string)
    requires ParseShardName(name).Some?
    ensures exists wd, rd ::
      (RegexMatch(name, wd, rd) && ParseShardName(name).value == ShardId(DecimalValue(wd), DecimalValue(rd)))
  {
    var w, e := ParsedParts(name);
    var wd := name[|Prefix|..w];
    var rd := name[w + |Infix|..e];
    GlobNamePrefix(name, w, e);
    assert RegexMatch(name, wd, rd);
  }

  /** The parse fails exactly when the pattern does not match. */
  lemma ParseShardNameCorrect(name: string)
    ensures ParseShardName(name).None? <==> !exists wd, rd :: RegexMatch(name, wd, rd)
  {
    if ParseShardName(name).Some? {
      ParseShardNameSound(name);
    }
    if exists wd, rd :: RegexMatch(name, wd, rd) {
      var wd, rd :| RegexMatch(name, wd, rd);
      ParseRegexMatch(name, wd, rd);
    }
  }

  // ---------------------------------------------------------------------------
  // f"model_world_size_{world_size}_rank_{rank}.pt"
  // ---------------------------------------------------------------------------

  /** The file the loader opens for one rank. */
  function ShardFileName(worldSize: nat, rank: nat): string
  {
    GlobName(NatToDecimal(worldSize), NatToDecimal(rank))
  }

  /** The name written for a rank is listed by the glob and parses back to the same numbers. */
  lemma ShardFileNameRoundTrip(worldSize: nat, rank: nat)
    ensures GlobMatch(ShardFileName(worldSize, rank))
    ensures ParseShardName(ShardFileName(worldSize, rank)) == Some(ShardId(worldSize, rank))
  {
    GlobMatchCorrect(ShardFileName(worldSize, rank));
    DecimalRoundTrip(worldSize);
    DecimalRoundTrip(rank);
    ParseRegexMatch(ShardFileName(worldSize, rank), NatToDecimal(worldSize), NatToDecimal(rank));
  }

  /** Different (world size, rank) pairs name different files. */
  lemma ShardFileNameInjective(w: nat, r: nat, w': nat, r': nat)
    requires ShardFileName(w, r) == ShardFileName(w', r')
    ensures w == w' && r == r'
  {
    ShardFileNameRoundTrip(w, r);
    ShardFileNameRoundTrip(w', r');
  }

  /** Trailing text after ".pt" does not stop the match. */
  lemma TrailingTextParses(worldSize: nat, rank: nat, tail: string)
    ensures ParseShardName(ShardFileName(worldSize, rank) + tail) == Some(ShardId(worldSize, rank))
  {
    var name := ShardFileName(worldSize, rank) + tail;
    assert ShardFileName(worldSize, rank) <= name;
    DecimalRoundTrip(worldSize);
    DecimalRoundTrip(rank);
    ParseRegexMatch(name, NatToDecimal(worldSize), NatToDecimal(rank));
  }

  /** A name the glob lists but the pattern rejects. */
  lemma GlobWithoutDigits()
    ensures GlobMatch("model_world_size_a_rank_0.pt")
    ensures ParseShardName("model_world_size_a_rank_0.pt") == None
  {
    assert "model_world_size_a_rank_0.pt" == GlobName("a", "0");
    GlobMatchCorrect("model_world_size_a_rank_0.pt");
    assert DigitRunEnd("model_world_size_a_rank_0.pt", |Prefix|) == |Prefix|;
  }

  /** Leading zeros are dropped by int(), so the parsed numbers name a different file. */
  lemma LeadingZerosRenamed()
    ensures ParseShardName(GlobName("02", "00")) == Some(ShardId(2, 0))
    ensures ShardFileName(2, 0) == GlobName("2", "0") != GlobName("02", "00")
  {
    assert DecimalValue("0") == 0;
    assert DecimalValue("02") == 2 && DecimalValue("00") == 0;
    ParseRegexMatch(GlobName("02", "00"), "02", "00");
    assert NatToDecimal(2) == "2";
    assert |GlobName("2", "0")| < |GlobName("02", "00")|;
  }
}
