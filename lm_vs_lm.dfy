/** The LM-vs-LM factuality evaluator: an examiner model cross-examines an
    examinee model about a claim, for at most four rounds, and then judges the
    claim correct (1.0) or incorrect (0.0). Both models are oracles: the examiner
    a function of the whole conversation it is shown (it is called with
    temperature 0), the examinee a function of the round and the questions it
    is asked in that round. */
module LmVsLm {
  import opened Text

  datatype Role = User | Assistant

  datatype Message = Message(role: Role, content: string)

  datatype Option<T> = None | Some(value: T)

  /** The examiner's reply to the conversation so far. */
  type Examiner = seq<Message> -> string

  /** The examinee's answer to a batch of questions in a given round. It is
      sampled with the default settings, so the round number stands for the
      draw: equal questions in different rounds may get different answers. */
  type Examinee = (nat, string) -> string

  // ================================================================ prompts

  const SetupHead: string := "Your goal is to try to verify the correctness of the following claim: \""

  const SetupTail: string :=
    "\", based on the background information you will gather. To gather this, You will provide short "
    + "questions whose purpose will be to verify the correctness of the claim, and I will reply to you "
    + "with the answers to these. Hopefully, with the help of the background questions and their answers, "
    + "you will be able to reach a conclusion as to whether the claim is correct or possibly incorrect. "
    + "Please keep asking questions as long as you\U{2019}re yet to be sure regarding the true veracity of "
    + "the claim. Please start with the first questions."

  /** The opening instruction to the examiner, quoting the claim. */
  function SetupPrompt(claim: string): string
  {
    SetupHead + claim + SetupTail
  }

  /** The setup prompt quotes the claim verbatim between its fixed head and tail. */
  lemma SetupPromptQuotesClaim(claim: string)
    ensures var p := SetupPrompt(claim);
      && |p| == |SetupHead| + |claim| + |SetupTail|
      && p[..|SetupHead|] == SetupHead
      && p[|SetupHead|..|SetupHead| + |claim|] == claim
      && p[|SetupHead| + |claim|..] == SetupTail
  {
  }

  const FollowUpPrompt: string :=
    "(i) Do you have any follow-up questions? Please answer with Yes or No.\n"
    + "    (ii) What are the follow-up questions?"

  const DecisionPrompt: string :=
    "Based on the interviewee\U{2019}s answers to your questions, what is your conclusion regarding "
    + "the correctness of the claim? Do you think it is correct or incorrect?"

  /** The conversation the examiner opens with. */
  function Opening(claim: string): seq<Message>
  {
    [Message(User, SetupPrompt(claim))]
  }

  /** The examiner asks for another round when its reply contains "yes" in any case. */
  predicate WantsMore(reply: string)
  {
    Contains(Lower(reply), "yes")
  }

  /** The examiner's verdict is "incorrect" when its reply contains it in any case. */
  predicate JudgedIncorrect(reply: string)
  {
    Contains(Lower(reply), "incorrect")
  }

  // ================================================================ the follow-up rounds

  /** The outcome of the follow-up rounds: the examiner's conversation at the end,
      the questions put to the examinee, in order, and the conversations the
      examiner was shown inside the loop, in order. */
  datatype Rounds = Rounds(history: seq<Message>, asked: seq<string>, prompts: seq<seq<Message>>)

  /** The follow-up rounds from round `round` on, with `questions` pending and
      `history` the examiner's conversation. The examinee answers; after the
      fourth answer the loop breaks; otherwise the follow-up prompt is added and
      the examiner replies, and its reply is the next batch of questions when it
      contains "yes". */
  function FollowUp(examiner: Examiner, examinee: Examinee, history: seq<Message>,
                    questions: string, round: nat): Rounds
    requires 1 <= round <= 4
    decreases 4 - round
  {
    var answered := history + [Message(Assistant, examinee(round, questions))];
    if round > 3 then
      Rounds(answered, [questions], [])
    else
      var prompted := answered + [Message(User, FollowUpPrompt)];
      var reply := examiner(prompted);
      var replied := prompted + [Message(Assistant, reply)];
      if WantsMore(reply) then
        var rest := FollowUp(examiner, examinee, replied, reply, round + 1);
        Rounds(rest.history, [questions] + rest.asked, [prompted] + rest.prompts)
      else
        Rounds(replied, [questions], [prompted])
  }

  /** What the rounds from `round` on do: at least one and at most `5 - round`
      examinee calls, the first on the pending questions and every later one on
      an examiner reply that asked for more; one examiner call per round that did
      not break; and the conversation grows by the examinee's answer each round
      and by the follow-up prompt and the examiner's reply each examiner call. */
  lemma {:induction false} FollowUpShape(examiner: Examiner, examinee: Examinee, history: seq<Message>,
                                         questions: string, round: nat)
    requires 1 <= round <= 4
    ensures var r := FollowUp(examiner, examinee, history, questions, round);
      && 1 <= |r.asked| <= 5 - round
      && r.asked[0] == questions
      && (forall i :: 1 <= i < |r.asked| ==> WantsMore(r.asked[i]))
      && |r.asked| - 1 <= |r.prompts| <= |r.asked|
      && |r.prompts| <= 4 - round
      && |r.history| == |history| + |r.asked| + 2 * |r.prompts|
      && r.history[..|history|] == history
    decreases 4 - round
  {
    var r := FollowUp(examiner, examinee, history, questions, round);
    var answered := history + [Message(Assistant, examinee(round, questions))];
    if round <= 3 {
      var prompted := answered + [Message(User, FollowUpPrompt)];
      var reply := examiner(prompted);
      var replied := prompted + [Message(Assistant, reply)];
      if WantsMore(reply) {
        var rest := FollowUp(examiner, examinee, replied, reply, round + 1);
        FollowUpShape(examiner, examinee, replied, reply, round + 1);
        assert r.asked == [questions] + rest.asked;
        forall i | 1 <= i < |r.asked|
          ensures WantsMore(r.asked[i])
        {
          if i == 1 {
            assert r.asked[1] == reply;
          } else {
            assert r.asked[i] == rest.asked[i - 1];
          }
        }
        assert replied[..|history|] == history;
        assert r.history[..|replied|] == replied;
        assert r.history[..|history|] == replied[..|history|];
      } else {
        assert r.history[..|history|] == history;
      }
    } else {
      assert r.history[..|history|] == history;
    }
  }

  /** Every conversation the examiner is shown in the loop ends with the
      examinee's answer to that round's questions, then the follow-up prompt. */
  lemma {:induction false} FollowUpPromptsEnd(examiner: Examiner, examinee: Examinee, history: seq<Message>,
                                              questions: string, round: nat)
    requires 1 <= round <= 4
    ensures var r := FollowUp(examiner, examinee, history, questions, round);
      && |r.prompts| <= |r.asked|
      && forall i :: 0 <= i < |r.prompts| ==>
           && |r.prompts[i]| >= 2
           && r.prompts[i][|r.prompts[i]| - 1] == Message(User, FollowUpPrompt)
           && r.prompts[i][|r.prompts[i]| - 2] == Message(Assistant, examinee(round + i, r.asked[i]))
    decreases 4 - round
  {
    if round <= 3 {
      var prompted := history + [Message(Assistant, examinee(round, questions))] + [Message(User, FollowUpPrompt)];
      var reply := examiner(prompted);
      if WantsMore(reply) {
        var r := FollowUp(examiner, examinee, history, questions, round);
        var rest := FollowUp(examiner, examinee, prompted + [Message(Assistant, reply)], reply, round + 1);
        FollowUpPromptsEnd(examiner, examinee, prompted + [Message(Assistant, reply)], reply, round + 1);
        forall i | 0 <= i < |r.prompts|
          ensures |r.prompts[i]| >= 2
          ensures r.prompts[i][|r.prompts[i]| - 1] == Message(User, FollowUpPrompt)
          ensures r.prompts[i][|r.prompts[i]| - 2] == Message(Assistant, examinee(round + i, r.asked[i]))
        {
          if i > 0 {
            assert r.prompts[i] == rest.prompts[i - 1] && r.asked[i] == rest.asked[i - 1];
          }
        }
      }
    }
  }

  /** The questions of every later round are the examiner's reply to the
      conversation it was shown at the end of the round before. */
  lemma {:induction false} FollowUpChain(examiner: Examiner, examinee: Examinee, history: seq<Message>,
                                         questions: string, round: nat)
    requires 1 <= round <= 4
    ensures var r := FollowUp(examiner, examinee, history, questions, round);
      forall i :: 0 <= i < |r.prompts| && i + 1 < |r.asked| ==> r.asked[i + 1] == examiner(r.prompts[i])
    decreases 4 - round
  {
    if round <= 3 {
      var prompted := history + [Message(Assistant, examinee(round, questions))] + [Message(User, FollowUpPrompt)];
      var reply := examiner(prompted);
      if WantsMore(reply) {
        var r := FollowUp(examiner, examinee, history, questions, round);
        var rest := FollowUp(examiner, examinee, prompted + [Message(Assistant, reply)], reply, round + 1);
        FollowUpChain(examiner, examinee, prompted + [Message(Assistant, reply)], reply, round + 1);
        forall i | 0 <= i < |r.prompts| && i + 1 < |r.asked|
          ensures r.asked[i + 1] == examiner(r.prompts[i])
        {
          if i > 0 {
            assert r.prompts[i] == rest.prompts[i - 1] && r.asked[i + 1] == rest.asked[i];
          }
        }
      }
    }
  }

  /** The examiner's conversation after the rounds ends with the examiner's last
      reply when it stopped asking, or with the examinee's last answer when the
      loop broke after the fourth round. */
  lemma {:induction false} FollowUpEndsWith(examiner: Examiner, examinee: Examinee, history: seq<Message>,
                                            questions: string, round: nat)
    requires 1 <= round <= 4
    ensures var r := FollowUp(examiner, examinee, history, questions, round);
      && 0 < |r.asked| && 0 < |r.history|
      && r.history[|r.history| - 1] ==
           if |r.prompts| == |r.asked| then Message(Assistant, examiner(r.prompts[|r.prompts| - 1]))
           else Message(Assistant, examinee(round + |r.asked| - 1, r.asked[|r.asked| - 1]))
    decreases 4 - round
  {
    if round <= 3 {
      var prompted := history + [Message(Assistant, examinee(round, questions))] + [Message(User, FollowUpPrompt)];
      var reply := examiner(prompted);
      if WantsMore(reply) {
        var r := FollowUp(examiner, examinee, history, questions, round);
        var rest := FollowUp(examiner, examinee, prompted + [Message(Assistant, reply)], reply, round + 1);
        FollowUpEndsWith(examiner, examinee, prompted + [Message(Assistant, reply)], reply, round + 1);
        assert r.history == rest.history;
        assert r.asked[|r.asked| - 1] == rest.asked[|rest.asked| - 1];
        if |rest.prompts| > 0 {
          assert r.prompts[|r.prompts| - 1] == rest.prompts[|rest.prompts| - 1];
        }
      }
    }
  }

  /** Another round follows the first exactly when the first did not break and the
      examiner's reply to it asked for more. */
  lemma AnotherRoundIff(examiner: Examiner, examinee: Examinee, history: seq<Message>,
                        questions: string, round: nat)
    requires 1 <= round <= 4
    ensures var reply := examiner(history + [Message(Assistant, examinee(round, questions)), Message(User, FollowUpPrompt)]);
      |FollowUp(examiner, examinee, history, questions, round).asked| > 1 <==> round <= 3 && WantsMore(reply)
  {
    var answered := history + [Message(Assistant, examinee(round, questions))];
    var prompted := answered + [Message(User, FollowUpPrompt)];
    assert prompted == history + [Message(Assistant, examinee(round, questions)), Message(User, FollowUpPrompt)];
    if round <= 3 && WantsMore(examiner(prompted)) {
      var reply := examiner(prompted);
      FollowUpShape(examiner, examinee, prompted + [Message(Assistant, reply)], reply, round + 1);
    }
  }

  // ================================================================ the evaluator

  /** The whole interview: the examiner's first questions on the opening, then the
      follow-up rounds from round 1. */
  function Interview(examiner: Examiner, examinee: Examinee, claim: string): Rounds
  {
    var questions := examiner(Opening(claim));
    FollowUp(examiner, examinee, Opening(claim) + [Message(Assistant, questions)], questions, 1)
  }

  /** The conversation the examiner is asked for its conclusion on. */
  function DecisionConversation(examiner: Examiner, examinee: Examinee, claim: string): seq<Message>
  {
    Interview(examiner, examinee, claim).history + [Message(User, DecisionPrompt)]
  }

  /** 1.0 unless the verdict says "incorrect". */
  function Score(verdict: string): real
  {
    if JudgedIncorrect(verdict) then 0.0 else 1.0
  }

  /** What `lm_vs_lm_factuality` returns. */
  function Factuality(examiner: Examiner, examinee: Examinee, claim: string): real
  {
    Score(examiner(DecisionConversation(examiner, examinee, claim)))
  }

  /** The score is 1.0 exactly when the verdict does not say "incorrect", and 0.0
      otherwise. */
  lemma FactualityVerdict(examiner: Examiner, examinee: Examinee, claim: string)
    ensures var verdict := examiner(DecisionConversation(examiner, examinee, claim));
      && (Factuality(examiner, examinee, claim) == 1.0 <==> !JudgedIncorrect(verdict))
      && (Factuality(examiner, examinee, claim) == 0.0 <==> JudgedIncorrect(verdict))
  {
  }

  /** The call counts of a whole evaluation: one to four examinee calls, and
      between three and five examiner calls (the opening, one per round that did
      not break, the conclusion; the first round never breaks); the conclusion is asked on the conversation that
      opened with the claim and ends with the decision prompt. */
  lemma InterviewCalls(examiner: Examiner, examinee: Examinee, claim: string)
    ensures var r := Interview(examiner, examinee, claim);
      && 1 <= |r.asked| <= 4
      && 3 <= 1 + |r.prompts| + 1 <= 5
      && r.asked[0] == examiner(Opening(claim))
      && var d := DecisionConversation(examiner, examinee, claim);
         d[0] == Message(User, SetupPrompt(claim)) && d[|d| - 1] == Message(User, DecisionPrompt)
  {
    var questions := examiner(Opening(claim));
    var start := Opening(claim) + [Message(Assistant, questions)];
    FollowUpShape(examiner, examinee, start, questions, 1);
    var r := Interview(examiner, examinee, claim);
    assert r.history[..|start|] == start;
    assert r.history[0] == start[0];
  }

  /** An examiner that always asks for more meets the round limit: the examinee
      is called four times and the examiner five times. */
  lemma EagerExaminerUsesAllRounds(examiner: Examiner, examinee: Examinee, claim: string)
    requires forall h :: WantsMore(examiner(h))
    ensures |Interview(examiner, examinee, claim).asked| == 4
    ensures |Interview(examiner, examinee, claim).prompts| == 3
  {
    var questions := examiner(Opening(claim));
    var h := Opening(claim) + [Message(Assistant, questions)];
    RoundsWhenEager(examiner, examinee, h, questions, 1);
  }

  lemma {:induction false} RoundsWhenEager(examiner: Examiner, examinee: Examinee, history: seq<Message>,
                                           questions: string, round: nat)
    requires 1 <= round <= 4
    requires forall h :: WantsMore(examiner(h))
    ensures |FollowUp(examiner, examinee, history, questions, round).asked| == 5 - round
    ensures |FollowUp(examiner, examinee, history, questions, round).prompts| == 4 - round
    decreases 4 - round
  {
    if round <= 3 {
      var answered := history + [Message(Assistant, examinee(round, questions))];
      var prompted := answered + [Message(User, FollowUpPrompt)];
      var reply := examiner(prompted);
      assert WantsMore(reply);
      RoundsWhenEager(examiner, examinee, prompted + [Message(Assistant, reply)], reply, round + 1);
    }
  }

  /** An examiner that never asks for more ends the interview after one examinee
      call and three examiner calls in all: the opening, one follow-up and the
      conclusion. */
  lemma SatisfiedExaminerStopsAtOnce(examiner: Examiner, examinee: Examinee, claim: string)
    requires forall h :: !WantsMore(examiner(h))
    ensures |Interview(examiner, examinee, claim).asked| == 1
    ensures |Interview(examiner, examinee, claim).prompts| == 1
  {
  }

  /** A reply that begins with "Yes" asks for more, whatever follows. */
  lemma YesWantsMore(rest: string)
    ensures WantsMore("Yes" + rest)
  {
    var s := Lower("Yes" + rest);
    assert s[..3] == "yes";
    assert StartsWith(s, "yes");
  }

  /** `lm_vs_lm_factuality`: the opening call, the follow-up loop (the round
      counter starts at 1, the loop breaks after an examinee answer once it
      exceeds 3, and goes on only while the examiner's reply contains "yes"),
      then the conclusion call. `examinerCalls` and `examineeCalls` log what each
      model was shown, in order. */
  method LmVsLmFactuality(examiner: Examiner, examinee: Examinee, claim: string)
    returns (score: real, ghost examinerCalls: seq<seq<Message>>, ghost examineeCalls: seq<string>)
    ensures score == Factuality(examiner, examinee, claim)
    ensures examineeCalls == Interview(examiner, examinee, claim).asked
    ensures examinerCalls
      == [Opening(claim)] + Interview(examiner, examinee, claim).prompts
         + [DecisionConversation(examiner, examinee, claim)]
  {
    var messages := [Message(User, SetupPrompt(claim))];
    var first := examiner(messages);
    examinerCalls := [messages];
    messages := messages + [Message(Assistant, first)];
    var rounds: nat := 1;
    var followUp: Option<string> := Some(first);
    examineeCalls := [];
    ghost var whole := Interview(examiner, examinee, claim);
    while followUp.Some?
      invariant 1 <= rounds <= 4
      invariant followUp.Some? ==>
        var rest := FollowUp(examiner, examinee, messages, followUp.value, rounds);
        && whole.history == rest.history
        && whole.asked == examineeCalls + rest.asked
        && [Opening(claim)] + whole.prompts == examinerCalls + rest.prompts
      invariant followUp.None? ==>
        && whole.history == messages
        && whole.asked == examineeCalls
        && [Opening(claim)] + whole.prompts == examinerCalls
      decreases if followUp.Some? then 5 - rounds else 0
    {
      var questions := followUp.value;
      ghost var rest := FollowUp(examiner, examinee, messages, questions, rounds);
      examineeCalls := examineeCalls + [questions];
      var answers := examinee(rounds, questions);
      messages := messages + [Message(Assistant, answers)];
      if rounds > 3 {
        assert whole.history == messages && whole.asked == examineeCalls;
        assert [Opening(claim)] + whole.prompts == examinerCalls;
        break;
      }
      messages := messages + [Message(User, FollowUpPrompt)];
      ghost var prompted := messages;
      rounds := rounds + 1;
      var reply := examiner(messages);
      examinerCalls := examinerCalls + [messages];
      messages := messages + [Message(Assistant, reply)];
      if WantsMore(reply) {
        followUp := Some(reply);
        ghost var next := FollowUp(examiner, examinee, messages, reply, rounds);
        assert rest.asked == [questions] + next.asked;
        assert rest.prompts == [prompted] + next.prompts;
      } else {
        followUp := None;
      }
    }
    messages := messages + [Message(User, DecisionPrompt)];
    var verdict := examiner(messages);
    examinerCalls := examinerCalls + [messages];
    score := if JudgedIncorrect(verdict) then 0.0 else 1.0;
  }
}
