/**
 * GSM8K preprocessing (src/data_preprocess/gsm8k/WHWM_NO_THINK.py): the numeric
 * answer key taken from a reference solution, and the training record built
 * from one question/answer row.
 */
module Preprocess {
  import opened Wrappers
  import opened Text

  const DataSource := "openai/gsm8k"
  const KeyMarker := "#### "
  const NoThinkSuffix := " /no_think"

  /** The system prompt placed before every question. */
  const Instruction: string :=
    "\n"
    + "Answer the given question.\n"
    + "You must conduct reasoning inside <think> and </think> each time you process new information.\n"
    + "During reasoning, you must think through the following sub-questions, in any order and as many times as needed. Each time you consider one, wrap your reasoning using the appropriate tag:\n"
    + "- Use <what> and </what> to describe what are the known and unknown objects in the question, and the relationships between them.\n"
    + "- Use <how> and </how> to explain how these objects and relationships can be used to solve the question.\n"
    + "- Use <why> and </why> to justify why this solution method is valid.\n"
    + "- Use <meaningful> and </meaningful> to verify whether the solution correctly and meaningfully solves the question.\n"
    + "You may revisit any sub-question multiple times and in any order inside <think> and </think>.\n"
    + "Once you are confident that the question is correctly solved, provide the answer inside <answer> and </answer>, without detailed illustrations\n"

  // ---------------------------------------------------------------------------
  // extract_solution: re.search("#### (\\-?[0-9\\.\\,]+)", s)
  // ---------------------------------------------------------------------------

  predicate IsKeyChar(c: char)
  {
    IsDigit(c) || c == '.' || c == ','
  }

  /**
   * The pattern matches at k: the marker, then either a key character or a
   * minus sign followed by one. A minus sign not followed by a key character
   * is no match, since the sign is optional but the run is not.
   */
  predicate KeyAt(s: string, k: nat)
  {
    && PrefixAt(s, k, KeyMarker)
    && ((k + 5 < |s| && IsKeyChar(s[k + 5])) || (k + 6 < |s| && s[k + 5] == '-' && IsKeyChar(s[k + 6])))
  }

  ghost predicate HasKey(s: string)
  {
    exists k: nat :: KeyAt(s, k)
  }

  /** The leftmost match at or after `from`. */
  function FindKey(s: string, from: nat): (r: Option<nat>)
    ensures r.Some? ==> from <= r.value && KeyAt(s, r.value)
    ensures r.Some? ==> forall k: nat :: from <= k < r.value ==> !KeyAt(s, k)
    ensures r.None? ==> forall k: nat :: from <= k ==> !KeyAt(s, k)
    decreases |s| - from
  {
    if from > |s| then None
    else if KeyAt(s, from) then Some(from)
    else FindKey(s, from + 1)
  }

  /** The end of the maximal run of key characters starting at i (the greedy `+`). */
  function KeyRunEnd(s: string, i: nat): nat
    requires i <= |s|
  {
    RunEnd(s, i, IsKeyChar)
  }

  /** Where the run of key characters starts: after the sign, if there is one. */
  function RunStart(s: string, k: nat): (p: nat)
    requires KeyAt(s, k)
    ensures p < |s| && IsKeyChar(s[p])
  {
    if s[k + 5] == '-' then k + 6 else k + 5
  }

  function Sign(s: string, k: nat): string
    requires KeyAt(s, k)
  {
    if s[k + 5] == '-' then "-" else ""
  }

  /** Digits and dots, with at most one minus sign, in front. */
  predicate IsSignedNumeral(r: string)
  {
    forall m :: 0 <= m < |r| ==> IsDigit(r[m]) || r[m] == '.' || (m == 0 && r[m] == '-')
  }

  /**
   * extract_solution. group(0) is the marker followed by the sign and the run;
   * since the run holds no '#', split("#### ")[1] is everything after the
   * marker. None stands for the failed assertion on a missing match.
   */
  function ExtractSolution(s: string): (r: Option<string>)
    ensures r.None? <==> !HasKey(s)
    ensures r.Some? ==> IsSignedNumeral(r.value) && ',' !in r.value
  {
    match FindKey(s, 0)
    case None => None
    case Some(k) =>
      var matched := s[k..KeyRunEnd(s, RunStart(s, k))];
      assert matched[|KeyMarker|..] == Sign(s, k) + s[RunStart(s, k)..KeyRunEnd(s, RunStart(s, k))];
      KeyBodyClean(s, k);
      Some(Remove(Remove(matched[|KeyMarker|..], ','), '$'))
  }

  /** An optional minus sign before a run of digits, dots and commas: cleaning keeps the sign and drops the commas. */
  lemma CleanSignedRun(sign: string, run: string)
    requires sign == "" || sign == "-"
    requires forall m :: 0 <= m < |run| ==> IsKeyChar(run[m])
    ensures Remove(Remove(sign + run, ','), '$') == sign + Remove(run, ',')
    ensures IsSignedNumeral(sign + Remove(run, ',')) && ',' !in sign + Remove(run, ',')
  {
    RemoveAppend(sign, run, ',');
    RemoveAbsent(sign, ',');
    var cleaned := Remove(run, ',');
    assert forall x :: x in cleaned ==> IsDigit(x) || x == '.' by {
      forall x | x in cleaned ensures IsDigit(x) || x == '.' {
        assert x in run;
        var m :| 0 <= m < |run| && run[m] == x;
      }
    }
    RemoveAbsent(sign + cleaned, '$');
    forall m | 0 <= m < |sign + cleaned|
      ensures IsDigit((sign + cleaned)[m]) || (sign + cleaned)[m] == '.' || (m == 0 && (sign + cleaned)[m] == '-')
    {
      if m >= |sign| {
        assert (sign + cleaned)[m] == cleaned[m - |sign|];
        assert cleaned[m - |sign|] in cleaned;
      }
    }
  }

  /** Removing the commas and (absent) dollar signs from sign + run keeps the sign and cleans the run. */
  lemma KeyBodyClean(s: string, k: nat)
    requires KeyAt(s, k)
    ensures var run := s[RunStart(s, k)..KeyRunEnd(s, RunStart(s, k))];
      && Remove(Remove(Sign(s, k) + run, ','), '$') == Sign(s, k) + Remove(run, ',')
      && IsSignedNumeral(Sign(s, k) + Remove(run, ','))
      && ',' !in Sign(s, k) + Remove(run, ',')
  {
    var p := RunStart(s, k);
    var q := KeyRunEnd(s, p);
    var run := s[p..q];
    forall m | 0 <= m < |run| ensures IsKeyChar(run[m]) {
      assert run[m] == s[p + m];
    }
    CleanSignedRun(Sign(s, k), run);
  }

  /** The match the search reports: the leftmost k where the pattern matches, and q the end of its maximal run. */
  ghost predicate KeySpan(s: string, k: nat, q: nat)
  {
    && KeyAt(s, k) && (forall k': nat :: k' < k ==> !KeyAt(s, k'))
    && RunStart(s, k) <= q <= |s|
    && (forall m :: RunStart(s, k) <= m < q ==> IsKeyChar(s[m]))
    && (q < |s| ==> !IsKeyChar(s[q]))
  }

  /** The key read at the match FindKey reports. */
  lemma ExtractSolutionAtMatch(s: string, k: nat)
    requires FindKey(s, 0) == Some(k)
    ensures ExtractSolution(s) == Some(Sign(s, k) + Remove(s[RunStart(s, k)..KeyRunEnd(s, RunStart(s, k))], ','))
  {
    var q := KeyRunEnd(s, RunStart(s, k));
    KeyBodyClean(s, k);
    assert s[k..q][|KeyMarker|..] == Sign(s, k) + s[RunStart(s, k)..q];
  }

  /**
   * The key is taken at the leftmost marker where the pattern matches; it is
   * the sign followed by the maximal run of digits, dots and commas, with the
   * commas deleted and everything else kept in order.
   */
  lemma ExtractSolutionSpec(s: string)
    requires HasKey(s)
    ensures exists k: nat, q: nat ::
      KeySpan(s, k, q) && ExtractSolution(s) == Some(Sign(s, k) + Remove(s[RunStart(s, k)..q], ','))
  {
    var k := FindKey(s, 0).value;
    var q := KeyRunEnd(s, RunStart(s, k));
    ExtractSolutionAtMatch(s, k);
    assert KeySpan(s, k, q);
  }

  lemma EmptyKey()
    ensures ExtractSolution("#### ,") == Some("")
  {
    var s := "#### ,";
    assert KeyAt(s, 0);
    assert FindKey(s, 0) == Some(0);
    assert KeyRunEnd(s, 5) == 6;
    assert s[0..6][5..] == ",";
  }

  /** Where the pattern matches in "x #### -1,5", and where its run ends. */
  lemma NegativeKeyLocated()
    ensures FindKey("x #### -1,5", 0) == Some(2)
    ensures RunStart("x #### -1,5", 2) == 8 && KeyRunEnd("x #### -1,5", 8) == 11
  {
    var s := "x #### -1,5";
    assert !KeyAt(s, 0) && !KeyAt(s, 1) && KeyAt(s, 2);
    assert KeyRunEnd(s, 11) == 11;
  }

  /** A negative key keeps its sign; the thousands separator is dropped. */
  lemma NegativeKeyWithSeparator()
    ensures ExtractSolution("x #### -1,5") == Some("-15")
  {
    var s := "x #### -1,5";
    NegativeKeyLocated();
    assert s[2..11][5..] == "-1,5";
    RemovedSeparator();
  }

  lemma RemovedSeparator()
    ensures Remove(Remove("-1,5", ','), '$') == "-15"
  {
    assert Remove("5", ',') == "5";
    assert Remove(",5", ',') == "5";
    assert Remove("1,5", ',') == "15";
    assert Remove("-1,5", ',') == "-15";
    RemoveAbsent("-15", '$');
  }

  // ---------------------------------------------------------------------------
  // process_fn
  // ---------------------------------------------------------------------------

  datatype Message = Message(role: string, content: string)

  datatype RewardModel = RewardModel(style: string, groundTruth: string)

  datatype ExtraInfo = ExtraInfo(split: string, index: int, answer: string, question: string)

  datatype Record = Record(
    dataSource: string,
    prompt: seq<Message>,
    ability: string,
    rewardModel: RewardModel,
    extraInfo: ExtraInfo)

  /**
   * What every training record satisfies: a fixed source and ability, the
   * system instruction then the stored question marked /no_think, and a
   * rule-style ground truth that is the key of the stored raw answer.
   */
  predicate WellFormed(r: Record)
  {
    && r.dataSource == DataSource
    && r.ability == "math"
    && |r.prompt| == 2
    && r.prompt[0] == Message("system", Instruction)
    && r.prompt[1] == Message("user", r.extraInfo.question + NoThinkSuffix)
    && r.rewardModel.style == "rule"
    && ExtractSolution(r.extraInfo.answer) == Some(r.rewardModel.groundTruth)
  }

  /** The inputs a record was built from, read back out of it. */
  function Inputs(r: Record): (string, int, string, string)
  {
    (r.extraInfo.split, r.extraInfo.index, r.extraInfo.question, r.extraInfo.answer)
  }

  /** The record process_fn returns; None when the answer has no key (the assertion fails). */
  function BuildRecord(split: string, idx: int, question: string, answer: string): (r: Option<Record>)
    ensures r.None? <==> !HasKey(answer)
    ensures r.Some? ==> WellFormed(r.value) && Inputs(r.value) == (split, idx, question, answer)
    ensures r.Some? ==> IsSignedNumeral(r.value.rewardModel.groundTruth)
  {
    match ExtractSolution(answer)
    case None => None
    case Some(solution) =>
      Some(Record(
        DataSource,
        [Message("system", Instruction), Message("user", question + NoThinkSuffix)],
        "math",
        RewardModel("rule", solution),
        ExtraInfo(split, idx, answer, question)))
  }

  /** The user message alone gives the question back. */
  lemma UserMessageGivesQuestion(r: Record)
    requires WellFormed(r)
    ensures var content := r.prompt[1].content;
      && |content| >= |NoThinkSuffix|
      && content[|content| - |NoThinkSuffix|..] == NoThinkSuffix
      && content[..|content| - |NoThinkSuffix|] == r.extraInfo.question
  {
    var content := r.prompt[1].content;
    assert content == r.extraInfo.question + NoThinkSuffix;
    assert content[..|content| - |NoThinkSuffix|] == r.extraInfo.question;
  }

  /** One dataset row as the mapping function receives it: a dict it may mutate. */
  class Example {
    var columns: map<string, string>

    constructor (columns: map<string, string>)
      ensures this.columns == columns
    {
      this.columns := columns;
    }

    /** dict.pop(key): the value, removed from the row; None is the KeyError. */
    method Pop(key: string) returns (v: Option<string>)
      modifies this
      ensures key in old(columns) ==> v == Some(old(columns)[key]) && columns == old(columns) - {key}
      ensures key !in old(columns) ==> v == None && columns == old(columns)
    {
      if key in columns {
        v := Some(columns[key]);
        columns := columns - {key};
      } else {
        v := None;
      }
    }
  }

  datatype ProcessError = KeyError(key: string) | AssertionError

  /**
   * process_fn of make_map_fn(split): pops the question, then the answer, from
   * the row and builds the record. A missing question leaves the row as it
   * was; a missing answer is noticed after the question is already gone.
   */
  method ProcessFn(split: string, example: Example, idx: int) returns (r: Result<Record, ProcessError>)
    modifies example
    ensures "question" !in old(example.columns) ==>
      r == Failure(KeyError("question")) && example.columns == old(example.columns)
    ensures "question" in old(example.columns) && "answer" !in old(example.columns) ==>
      r == Failure(KeyError("answer")) && example.columns == old(example.columns) - {"question"}
    ensures "question" in old(example.columns) && "answer" in old(example.columns) ==>
      && example.columns == old(example.columns) - {"question", "answer"}
      && r == match BuildRecord(split, idx, old(example.columns)["question"], old(example.columns)["answer"])
              case Some(record) => Success(record)
              case None => Failure(AssertionError)
  {
    var questionRaw := example.Pop("question");
    if questionRaw.None? {
      return Failure(KeyError("question"));
    }
    var answerRaw := example.Pop("answer");
    if answerRaw.None? {
      return Failure(KeyError("answer"));
    }
    match BuildRecord(split, idx, questionRaw.value, answerRaw.value)
    case Some(record) => r := Success(record);
    case None => r := Failure(AssertionError);
  }
}
