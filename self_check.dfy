/** The self-consistency evaluator: the question is answered five times by a
    sampling model, and every sentence of the output under test is scored by the
    share of those answers a judge model finds it supported by; the score is the
    mean over the sentences. Both models are oracles. The sampler's answers
    to the one prompt it is sent may differ from draw to draw, so it is a
    function of the draw number as well as the prompt; the judge is called with
    temperature 0 and is a function of the prompt alone. */
module SelfCheck {
  import opened Text

  /** `n_sampled_outputs`. */
  const SampleCount: nat := 5

  /** The sampler's answer on draw `i` of a prompt. */
  type Sampler = (nat, string) -> string

  /** The judge's reply to a prompt. */
  type Judge = string -> string

  function SamplingPrompt(question: string): string
  {
    "Question: " + question
  }

  function JudgePrompt(context: string, sentence: string): string
  {
    "Context: " + context + "\nSentence: " + sentence
    + "\nIs the sentence supported by the context above?\nAnswer Yes or No:"
  }

  /** The judge finds the sentence supported when its reply contains "yes" in any case. */
  predicate Supported(reply: string)
  {
    Contains(Lower(reply), "yes")
  }

  /** `float("yes" in response.lower())`. */
  function Verdict(reply: string): real
  {
    if Supported(reply) then 1.0 else 0.0
  }

  // ================================================================ sums

  /** `sum(xs)`, adding from the left. */
  function Sum(xs: seq<real>): real
    decreases |xs|
  {
    if |xs| == 0 then 0.0 else Sum(xs[..|xs| - 1]) + xs[|xs| - 1]
  }

  /** A sum of numbers in `[0, 1]` lies in `[0, |xs|]`. */
  lemma {:induction false} SumBounds(xs: seq<real>)
    requires forall i :: 0 <= i < |xs| ==> 0.0 <= xs[i] <= 1.0
    ensures 0.0 <= Sum(xs) <= |xs| as real
    decreases |xs|
  {
    if |xs| > 0 {
      SumBounds(xs[..|xs| - 1]);
    }
  }

  /** A sum of `n` copies of `c`. */
  lemma {:induction false} SumConstant(xs: seq<real>, c: real)
    requires forall i :: 0 <= i < |xs| ==> xs[i] == c
    ensures Sum(xs) == |xs| as real * c
    decreases |xs|
  {
    if |xs| > 0 {
      SumConstant(xs[..|xs| - 1], c);
    }
  }

  /** A share of a positive whole lies in `[0, 1]`. */
  lemma ShareBounds(part: real, whole: real)
    requires 0.0 <= part <= whole && whole > 0.0
    ensures 0.0 <= part / whole <= 1.0
  {
    var q := part / whole;
    assert q * whole == part;
  }

  /** The mean of numbers in `[0, 1]` lies in `[0, 1]`. */
  lemma MeanBounds(xs: seq<real>)
    requires |xs| > 0
    requires forall i :: 0 <= i < |xs| ==> 0.0 <= xs[i] <= 1.0
    ensures 0.0 <= Sum(xs) / |xs| as real <= 1.0
  {
    SumBounds(xs);
    ShareBounds(Sum(xs), |xs| as real);
  }

  // ================================================================ the scores

  /** The five samples: draw `i` answers the sampling prompt. */
  function Samples(sampler: Sampler, question: string): (r: seq<string>)
    ensures |r| == SampleCount
    ensures forall i :: 0 <= i < |r| ==> r[i] == sampler(i, SamplingPrompt(question))
  {
    seq(SampleCount, i requires 0 <= i => sampler(i, SamplingPrompt(question)))
  }

  /** The judge's verdicts on `sentence` against each sample, in sample order. */
  function Verdicts(judge: Judge, samples: seq<string>, sentence: string): (r: seq<real>)
    ensures |r| == |samples|
    ensures forall j :: 0 <= j < |r| ==> r[j] == Verdict(judge(JudgePrompt(samples[j], sentence)))
  {
    seq(|samples|, j requires 0 <= j < |samples| => Verdict(judge(JudgePrompt(samples[j], sentence))))
  }

  /** How many samples the judge finds `sentence` supported by. */
  function SupportCount(judge: Judge, samples: seq<string>, sentence: string): nat
    decreases |samples|
  {
    if |samples| == 0 then 0
    else
      SupportCount(judge, samples[..|samples| - 1], sentence)
      + (if Supported(judge(JudgePrompt(samples[|samples| - 1], sentence))) then 1 else 0)
  }

  /** A sentence's score: the mean of its verdicts. */
  function SentenceScore(judge: Judge, samples: seq<string>, sentence: string): real
    requires |samples| > 0
  {
    Sum(Verdicts(judge, samples, sentence)) / |samples| as real
  }

  /** The score of every sentence, in sentence order. */
  function SentenceScores(judge: Judge, samples: seq<string>, sentences: seq<string>): (r: seq<real>)
    requires |samples| > 0
    ensures |r| == |sentences|
    ensures forall i :: 0 <= i < |r| ==> r[i] == SentenceScore(judge, samples, sentences[i])
  {
    seq(|sentences|, i requires 0 <= i < |sentences| => SentenceScore(judge, samples, sentences[i]))
  }

  /** The overall score: 0.0 without sentences, otherwise the mean sentence score. */
  function Score(judge: Judge, samples: seq<string>, sentences: seq<string>): real
    requires |samples| > 0
  {
    if |sentences| == 0 then 0.0
    else Sum(SentenceScores(judge, samples, sentences)) / |sentences| as real
  }

  /** What `self_check` returns for the output split into `sentences`. */
  function SelfCheckScore(sampler: Sampler, judge: Judge, question: string, sentences: seq<string>): real
  {
    Score(judge, Samples(sampler, question), sentences)
  }

  /** The sum of the verdicts is the number of supporting samples, so a sentence
      score is that number over the number of samples. */
  lemma {:induction false} VerdictsCount(judge: Judge, samples: seq<string>, sentence: string)
    ensures Sum(Verdicts(judge, samples, sentence)) == SupportCount(judge, samples, sentence) as real
    decreases |samples|
  {
    if |samples| > 0 {
      var front := samples[..|samples| - 1];
      VerdictsCount(judge, front, sentence);
      assert Verdicts(judge, samples, sentence)[..|samples| - 1] == Verdicts(judge, front, sentence);
    }
  }

  lemma {:induction false} SupportCountBound(judge: Judge, samples: seq<string>, sentence: string)
    ensures SupportCount(judge, samples, sentence) <= |samples|
    decreases |samples|
  {
    if |samples| > 0 {
      SupportCountBound(judge, samples[..|samples| - 1], sentence);
    }
  }

  /** A sentence score is the share of supporting samples, in `[0, 1]`. */
  lemma SentenceScoreShare(judge: Judge, samples: seq<string>, sentence: string)
    requires |samples| > 0
    ensures SentenceScore(judge, samples, sentence)
      == SupportCount(judge, samples, sentence) as real / |samples| as real
    ensures 0.0 <= SentenceScore(judge, samples, sentence) <= 1.0
  {
    VerdictsCount(judge, samples, sentence);
    SupportCountBound(judge, samples, sentence);
    ShareBounds(SupportCount(judge, samples, sentence) as real, |samples| as real);
  }

  /** The overall score lies in `[0, 1]`, and is 0.0 when there are no sentences. */
  lemma ScoreBounds(judge: Judge, samples: seq<string>, sentences: seq<string>)
    requires |samples| > 0
    ensures 0.0 <= Score(judge, samples, sentences) <= 1.0
    ensures |sentences| == 0 ==> Score(judge, samples, sentences) == 0.0
  {
    if |sentences| > 0 {
      var scores := SentenceScores(judge, samples, sentences);
      forall i | 0 <= i < |scores|
        ensures 0.0 <= scores[i] <= 1.0
      {
        SentenceScoreShare(judge, samples, sentences[i]);
      }
      MeanBounds(scores);
    }
  }

  /** A judge that supports every sentence scores 1.0 on any non-empty output, and
      one that supports none scores 0.0. */
  lemma UnanimousJudge(judge: Judge, samples: seq<string>, sentences: seq<string>, supported: bool)
    requires |samples| > 0 && |sentences| > 0
    requires forall p :: Supported(judge(p)) == supported
    ensures Score(judge, samples, sentences) == if supported then 1.0 else 0.0
  {
    var v := if supported then 1.0 else 0.0;
    var scores := SentenceScores(judge, samples, sentences);
    forall i | 0 <= i < |scores|
      ensures scores[i] == v
    {
      UnanimousSentence(judge, samples, sentences[i], supported);
    }
    SumConstant(scores, v);
    MeanOfConstant(|sentences| as real, v);
  }

  /** Under such a judge every sentence scores `1.0`, or `0.0`. */
  lemma UnanimousSentence(judge: Judge, samples: seq<string>, sentence: string, supported: bool)
    requires |samples| > 0
    requires forall p :: Supported(judge(p)) == supported
    ensures SentenceScore(judge, samples, sentence) == if supported then 1.0 else 0.0
  {
    var v := if supported then 1.0 else 0.0;
    var verdicts := Verdicts(judge, samples, sentence);
    forall j | 0 <= j < |verdicts|
      ensures verdicts[j] == v
    {
      assert Supported(judge(JudgePrompt(samples[j], sentence))) == supported;
    }
    SumConstant(verdicts, v);
    MeanOfConstant(|samples| as real, v);
  }

  lemma MeanOfConstant(n: real, v: real)
    requires n > 0.0 && (v == 0.0 || v == 1.0)
    ensures (n * v) / n == v
  {
  }

  // ================================================================ the judge calls

  /** The judge prompts for one sentence, one per sample, in sample order. */
  function JudgeRow(samples: seq<string>, sentence: string): (r: seq<string>)
    ensures |r| == |samples|
    ensures forall j :: 0 <= j < |r| ==> r[j] == JudgePrompt(samples[j], sentence)
  {
    seq(|samples|, j requires 0 <= j < |samples| => JudgePrompt(samples[j], sentence))
  }

  /** The judge prompts of the nested loops, sentence by sentence. */
  function JudgeCalls(samples: seq<string>, sentences: seq<string>): seq<string>
    decreases |sentences|
  {
    if |sentences| == 0 then []
    else JudgeCalls(samples, sentences[..|sentences| - 1]) + JudgeRow(samples, sentences[|sentences| - 1])
  }

  /** Position `j` of row `i` of a table with `m` rows of `w` lies inside it. */
  lemma {:induction false} RowOffset(i: nat, j: nat, m: nat, w: nat)
    requires i < m && j < w
    ensures i * w + j < m * w
    decreases m
  {
    if i + 1 < m {
      RowOffset(i, j, m - 1, w);
    }
  }

  /** One judge call per (sentence, sample) pair. */
  lemma {:induction false} JudgeCallsLength(samples: seq<string>, sentences: seq<string>)
    ensures |JudgeCalls(samples, sentences)| == |sentences| * |samples|
    decreases |sentences|
  {
    if |sentences| > 0 {
      var m := |sentences| - 1;
      JudgeCallsLength(samples, sentences[..m]);
      assert |sentences| * |samples| == m * |samples| + |samples|;
    }
  }

  /** Call `i * |samples| + j` of `calls` asks about sentence `i` against sample `j`. */
  predicate AskedAt(calls: seq<string>, samples: seq<string>, sentences: seq<string>, i: nat, j: nat)
    requires i < |sentences| && j < |samples|
  {
    i * |samples| + j < |calls| && calls[i * |samples| + j] == JudgePrompt(samples[j], sentences[i])
  }

  /** The judge calls ask about sentence `i` against sample `j` at `i * |samples| + j`. */
  lemma {:induction false} JudgeCallAt(samples: seq<string>, sentences: seq<string>, i: nat, j: nat)
    requires i < |sentences| && j < |samples|
    ensures AskedAt(JudgeCalls(samples, sentences), samples, sentences, i, j)
    decreases |sentences|
  {
    var m := |sentences| - 1;
    var front := sentences[..m];
    JudgeCallsLength(samples, front);
    JudgeCallsLength(samples, sentences);
    RowOffset(i, j, |sentences|, |samples|);
    if i < m {
      JudgeCallAt(samples, front, i, j);
      RowOffset(i, j, m, |samples|);
      assert sentences[i] == front[i];
    }
  }

  /** The judge calls form a table: one row per sentence, one column per sample. */
  lemma JudgeCallsLayout(samples: seq<string>, sentences: seq<string>)
    ensures forall i: nat, j: nat :: i < |sentences| && j < |samples| ==>
      AskedAt(JudgeCalls(samples, sentences), samples, sentences, i, j)
  {
    forall i: nat, j: nat | i < |sentences| && j < |samples|
      ensures AskedAt(JudgeCalls(samples, sentences), samples, sentences, i, j)
    {
      JudgeCallAt(samples, sentences, i, j);
    }
  }

  // ================================================================ the evaluator

  /** The sampling loop: draw `i` of the sampling prompt for `i` below 5.
      `prompts` logs the prompts sent. */
  method DrawSamples(sampler: Sampler, question: string)
    returns (sampled: seq<string>, ghost prompts: seq<string>)
    ensures sampled == Samples(sampler, question)
    ensures |prompts| == SampleCount
    ensures forall i :: 0 <= i < |prompts| ==> prompts[i] == SamplingPrompt(question)
  {
    sampled := [];
    prompts := [];
    for i := 0 to SampleCount
      invariant sampled == Samples(sampler, question)[..i]
      invariant |prompts| == i
      invariant forall t :: 0 <= t < i ==> prompts[t] == SamplingPrompt(question)
    {
      var response := sampler(i, SamplingPrompt(question));
      prompts := prompts + [SamplingPrompt(question)];
      sampled := sampled + [response];
    }
  }

  /** The inner loop: judge `sentence` against every sample and average the
      verdicts. `prompts` logs the judge prompts, in sample order. */
  method ScoreSentence(judge: Judge, sampled: seq<string>, sentence: string)
    returns (score: real, ghost prompts: seq<string>)
    requires |sampled| > 0
    ensures score == SentenceScore(judge, sampled, sentence)
    ensures prompts == JudgeRow(sampled, sentence)
  {
    var scores: seq<real> := [];
    prompts := [];
    for j := 0 to |sampled|
      invariant scores == Verdicts(judge, sampled[..j], sentence)
      invariant prompts == JudgeRow(sampled[..j], sentence)
    {
      var prompt := JudgePrompt(sampled[j], sentence);
      var response := judge(prompt);
      prompts := prompts + [prompt];
      scores := scores + [if Supported(response) then 1.0 else 0.0];
    }
    assert sampled[..|sampled|] == sampled;
    score := Sum(scores) / |scores| as real;
  }

  /** Scoring one more sentence appends its score to the sentence scores. */
  lemma NextSentenceScores(judge: Judge, samples: seq<string>, sentences: seq<string>, i: nat)
    requires |samples| > 0 && i < |sentences|
    ensures SentenceScores(judge, samples, sentences[..i + 1])
      == SentenceScores(judge, samples, sentences[..i]) + [SentenceScore(judge, samples, sentences[i])]
  {
    var longer := SentenceScores(judge, samples, sentences[..i + 1]);
    var shorter := SentenceScores(judge, samples, sentences[..i]) + [SentenceScore(judge, samples, sentences[i])];
    forall k | 0 <= k < |longer|
      ensures longer[k] == shorter[k]
    {
      assert sentences[..i + 1][k] == sentences[k];
    }
  }

  /** Scoring one more sentence appends its row to the judge calls. */
  lemma NextSentenceCalls(samples: seq<string>, sentences: seq<string>, i: nat)
    requires i < |sentences|
    ensures JudgeCalls(samples, sentences[..i + 1])
      == JudgeCalls(samples, sentences[..i]) + JudgeRow(samples, sentences[i])
  {
    assert sentences[..i + 1][..i] == sentences[..i];
  }

  /** `self_check`: five samples of the question, then, unless the output has no
      sentences, one judge call per sentence and sample, in nested loops.
      `samplePrompts` and `judgePrompts` log what each model was asked, in order. */
  method SelfCheck(sampler: Sampler, judge: Judge, question: string, sentences: seq<string>)
    returns (score: real, ghost samplePrompts: seq<string>, ghost judgePrompts: seq<string>)
    ensures score == SelfCheckScore(sampler, judge, question, sentences)
    ensures 0.0 <= score <= 1.0
    ensures |samplePrompts| == SampleCount
    ensures forall i :: 0 <= i < |samplePrompts| ==> samplePrompts[i] == SamplingPrompt(question)
    ensures judgePrompts == JudgeCalls(Samples(sampler, question), sentences)
  {
    var sampled;
    sampled, samplePrompts := DrawSamples(sampler, question);
    ScoreBounds(judge, sampled, sentences);
    judgePrompts := [];
    if |sentences| == 0 {
      return 0.0, samplePrompts, judgePrompts;
    }
    var sentenceScores: seq<real> := [];
    for i := 0 to |sentences|
      invariant sentenceScores == SentenceScores(judge, sampled, sentences[..i])
      invariant judgePrompts == JudgeCalls(sampled, sentences[..i])
    {
      var sentenceScore;
      ghost var row;
      sentenceScore, row := ScoreSentence(judge, sampled, sentences[i]);
      NextSentenceScores(judge, sampled, sentences, i);
      NextSentenceCalls(sampled, sentences, i);
      sentenceScores := sentenceScores + [sentenceScore];
      judgePrompts := judgePrompts + row;
    }
    assert sentences[..|sentences|] == sentences;
    score := Sum(sentenceScores) / |sentenceScores| as real;
  }
}
