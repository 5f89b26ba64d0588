# LLM-driven evaluators of the RAG pipeline, modelled in Dafny

This project models the evaluation code of the RAG pipeline's `mad_skillz`
package, together with the `format_docs` helper of its generator.

- **Listwise context reranking** (`context_ranking_listwise.py`):
  - The factory checks the window size `n_contexts_to_rank`.
  - `listwise_reranking` asks a language model to sort up to a window of passages by relevance to a query. It reads the numbers back out of the reply with a fixed strip, replace, slice and split pipeline.
  - `progressive_reranking` slides that window from the tail of a longer context list to its head, half a window at a time, then makes one closing pass over the head. After each ranking it rewrites the window of the caller's `contexts` list and of its own `indices` list in place.
- **Examiner/examinee factuality** (`lm_vs_lm.py`):
  - An examiner model questions an examinee model about a claim for at most four rounds. It continues only while its reply contains "yes".
  - The examiner then gives a verdict, and the score is 0.0 when the verdict says "incorrect".
- **Self-consistency scoring** (`self_check.py`):
  - The question is sampled five times.
  - A judge model is asked once per (sentence, sample) pair whether the sentence is supported.
  - A sentence scores its share of "yes" replies, and the result is the mean sentence score, or 0.0 without sentences.
- **`format_docs`** (`generating.py`): the page contents of the retrieved documents, joined with a blank line between them.

Every language-model call is a parameter:
- the ranking model and the judge are `string -> string`, from prompt to reply;
- the examiner is `seq<Message> -> string`;
- the examinee is `(nat, string) -> string`, given the round number and the questions, so that its answers in different rounds may differ even to equal questions;
- the sampler is `(nat, string) -> string`, so that its five draws may differ.

Ghost out-parameters record what each model was shown, so contracts can speak about the number and the content of the calls.

Modules:
- `Text` (`text.dfy`) holds the string operations the Python code uses: `strip` with a character set, `replace` of one character, slicing off a prefix, `split` on one character, `join`, ASCII `lower`, `in` on substrings, ASCII `isdigit` and `int`. Each comes with the lemmas the other modules need.
- `ContextRankingListwise` is in `listwise.dfy`.
- `LmVsLm` is in `lm_vs_lm.dfy`.
- `SelfCheck` is in `self_check.dfy`.
- `Generating` is in `generating.dfy`.

The imperative parts are written as methods, each proved equal to a specification function. The specification functions carry the lemmas:
- the prompt-building loop;
- the `while` loop of `progressive_reranking`;
- the follow-up loop of `lm_vs_lm_factuality`;
- the sampling loop and the nested judging loops of `self_check`.

The reranking lists are `seq` values that the loop reassigns. A Python slice assignment `xs[a:b] = ys` becomes a splice, so the lists shrink when the model returns fewer numbers than the window holds, as in Python. A ranked number outside its window raises `IndexError` in Python. That is the `Rerank.IndexError` result, which carries the caller's list as the earlier windows left it.

### How the window ranker reads the model's reply

The prompt and the parse use different numberings:
- `context_ranking_listwise.py:38` numbers the passages from 1.
- The footer at lines 40-43 invites a reply of the form `[1, ..., n]`.
- Lines 57-59 keep the value of every all-digit token as it stands. They neither subtract 1 nor drop numbers outside the window.
- Lines 76-81 then use those numbers as 0-based positions in the window.

The model follows the code in this:
- `ParseReply` neither shifts nor range-checks.
- `OneBasedPair` shows that the reply `[2, 1]` to a two-passage prompt is read as `[2, 1]`, which is not an ordering of `0 .. 1`.
- `OneBasedRankingRaises` shows that any model answering the first window with the prompt's own 1-based numbers `1 .. k`, in any order, stops progressive reranking with an `IndexError` on that window, for every window size `k >= 2` and list longer than `k`.
- `OneBasedReplyRaises` is the instance for the model that always answers `[2, 1]`, with window 2.

## Model

| member | source | states |
|---|---|---|
| ContextRankingListwise.ContextRankingFactory | src/rag_pipeline/mad_skillz/context_ranking_listwise.py:23-24 | The factory raises `ValueError` with its fixed message exactly when `n_contexts_to_rank < 1`. Otherwise it configures that window size. No ranking function exists before the check. |
| ContextRankingListwise.Range | src/rag_pipeline/mad_skillz/context_ranking_listwise.py:32-34 | `range(n)`: the list `0 .. n-1`, entry `i` equal to `i`. |
| ContextRankingListwise.Prompt | src/rag_pipeline/mad_skillz/context_ranking_listwise.py:36-43 | The prompt for a window: each passage on its own line as `i+1 = passage`, then the footer with the query and the passage count. `BuildPrompt` proves the loop builds it, and `PromptListsPassage` places each passage. |
| ContextRankingListwise.BuildPrompt | src/rag_pipeline/mad_skillz/context_ranking_listwise.py:36-43 | The loop-built prompt equals `Prompt`: one line `i+1 = passage` per passage in order, then the query footer with the passage count. |
| ContextRankingListwise.NumberedPassagesAppend | src/rag_pipeline/mad_skillz/context_ranking_listwise.py:37-38 | Numbering a concatenation numbers the second part on from where the first part stopped. |
| ContextRankingListwise.PromptListsPassage | src/rag_pipeline/mad_skillz/context_ranking_listwise.py:36-43 | Passage `t` of the window appears under the 1-based number `t + 1`, after the passages before it and before those after it. |
| ContextRankingListwise.ParseNumbers | src/rag_pipeline/mad_skillz/context_ranking_listwise.py:59 | At most one number per token. |
| ContextRankingListwise.ParseNumbersAppend | src/rag_pipeline/mad_skillz/context_ranking_listwise.py:59 | Keeping the all-digit tokens preserves their order: parsing a concatenation concatenates the parses. |
| ContextRankingListwise.NumbersText | src/rag_pipeline/mad_skillz/context_ranking_listwise.py:57 | The text the numbers are read from: `strip("[] ")`, then `replace(" ", "")`, then `[16:]`. `NumbersTextCommas` and `ReplyNumbers` state what it leaves. |
| ContextRankingListwise.NumbersTextCommas | src/rag_pipeline/mad_skillz/context_ranking_listwise.py:57 | Stripping, removing spaces and dropping 16 characters never adds a comma. |
| ContextRankingListwise.ParseReply | src/rag_pipeline/mad_skillz/context_ranking_listwise.py:57-59 | A reply yields at most one more number than it has commas. |
| ContextRankingListwise.ParseReplyFor | src/rag_pipeline/mad_skillz/context_ranking_listwise.py:57-59 | Round trip: a reply in the format the prompt invites, `Sorted Passages = [a, b, ...]`, parses to exactly the listed numbers. This includes the empty list. |
| ContextRankingListwise.ReplyNumbers | src/rag_pipeline/mad_skillz/context_ranking_listwise.py:57 | For such a reply, the text left after strip, space removal and the 16-character cut is the numerals joined by commas. |
| ContextRankingListwise.Listwise | src/rag_pipeline/mad_skillz/context_ranking_listwise.py:26-59 | What `listwise_reranking` returns: `range(n)` for 0 or 1 contexts, otherwise the parse of the model's reply to the window's prompt. `ListwiseReranking` is proved equal to it, and `ListwiseIsPermutation` states when it is an ordering. |
| ContextRankingListwise.ListwiseReranking | src/rag_pipeline/mad_skillz/context_ranking_listwise.py:26-59 | See the list below. |
| ContextRankingListwise.WindowRanker | src/rag_pipeline/mad_skillz/context_ranking_listwise.py:26-59 | `listwise_reranking` as the ranker of each window: `Listwise` on that window. `ModelProgressiveIsPermutation` and `OneBasedRankingRaises` state what it does inside progressive reranking. |
| ContextRankingListwise.Slice | src/rag_pipeline/mad_skillz/context_ranking_listwise.py:73-74 | Python's `s[lo:hi]`, with both bounds clamped to the list. `StepFrame` and `OffsetsShape` state which positions a window covers. |
| ContextRankingListwise.AssignSlice | src/rag_pipeline/mad_skillz/context_ranking_listwise.py:76-81 | Python's `s[lo:hi] = t` on the clamped bounds: the list shrinks or grows when `t` differs in length from the slice. `RerankWindow` is proved to compute `WindowStep` with it. |
| ContextRankingListwise.Gather | src/rag_pipeline/mad_skillz/context_ranking_listwise.py:76-78 | The comprehension `[window[i] for i in order]`: one element per number, the window's element at that number. `RewriteKeepsSync` uses it to show that gathering contexts and indices with the same order keeps every context paired with its original index. |
| ContextRankingListwise.Rewrite | src/rag_pipeline/mad_skillz/context_ranking_listwise.py:76-81 | See the list below. |
| ContextRankingListwise.RewriteFrame | src/rag_pipeline/mad_skillz/context_ranking_listwise.py:76-81 | When the order is as long as the window, the length is kept, each position takes its element from `Origin`, and every position outside the window is unchanged. |
| ContextRankingListwise.WindowStep | src/rag_pipeline/mad_skillz/context_ranking_listwise.py:73-81 | See the list below. |
| ContextRankingListwise.StepFrame | src/rag_pipeline/mad_skillz/context_ranking_listwise.py:73-81 | A window step whose order is as long as the window changes only positions `[offset, offset + k)` of `contexts` and of `indices`. Both lengths are kept. |
| ContextRankingListwise.RerankWindow | src/rag_pipeline/mad_skillz/context_ranking_listwise.py:73-81 | The loop body, meaning the slices, the ranker call and the two slice assignments, computes `WindowStep` with the window ranker. |
| ContextRankingListwise.Run | src/rag_pipeline/mad_skillz/context_ranking_listwise.py:72-89 | Runs the window steps at the given offsets in turn and stops at the first `IndexError`. A run that finishes leaves two lists of equal length. `SlidingWindows` is proved equal to it over `Offsets(n, k)`. |
| ContextRankingListwise.WindowsFrom | src/rag_pipeline/mad_skillz/context_ranking_listwise.py:72-89 | The offsets visited always end with the closing pass at 0. |
| ContextRankingListwise.Offsets | src/rag_pipeline/mad_skillz/context_ranking_listwise.py:66-89 | The offsets the loop visits for `n` contexts and window `k`: from `n - k` down by `k // 2` while positive, then the closing pass at 0. `OffsetsShape`, `OffsetsCover` and `OffsetsFollowLoop` are proved about it. |
| ContextRankingListwise.Progressive | src/rag_pipeline/mad_skillz/context_ranking_listwise.py:61-91 | What `progressive_reranking` computes: one window call on a list that fits, otherwise `Run` over `Offsets(n, k)` from `range(n)`. `ProgressiveKeepsSync` and `ProgressiveIsPermutation` are proved about it. |
| ContextRankingListwise.ProgressiveReranking | src/rag_pipeline/mad_skillz/context_ranking_listwise.py:61-91 | See the list below. |
| ContextRankingListwise.SlidingWindows | src/rag_pipeline/mad_skillz/context_ranking_listwise.py:66-91 | See the list below. |
| ContextRankingListwise.RunFollowsStep | src/rag_pipeline/mad_skillz/context_ranking_listwise.py:72-83 | A run from a positive offset is that offset's window step followed by the run from `offset - step`. An `IndexError` in the step ends the run. |
| ContextRankingListwise.RunClosingPass | src/rag_pipeline/mad_skillz/context_ranking_listwise.py:85-89 | Once the offset is not positive, only the closing pass over `[0, k)` remains. |
| ContextRankingListwise.RewriteKeepsSync | src/rag_pipeline/mad_skillz/context_ranking_listwise.py:76-81 | Rewriting both lists with the same order keeps `contexts[j] == original[indices[j]]`, whatever the order within the window. |
| ContextRankingListwise.StepKeepsSync | src/rag_pipeline/mad_skillz/context_ranking_listwise.py:73-81 | Every window step that does not raise keeps the two lists in step. |
| ContextRankingListwise.RunKeepsSync | src/rag_pipeline/mad_skillz/context_ranking_listwise.py:70-89 | Any run of window steps that does not raise keeps the two lists in step. |
| ContextRankingListwise.ProgressiveKeepsSync | src/rag_pipeline/mad_skillz/context_ranking_listwise.py:70-91 | When the sliding windows finish, the lists have equal length and each working context is the original context its index names. |
| ContextRankingListwise.ListwiseIsPermutation | src/rag_pipeline/mad_skillz/context_ranking_listwise.py:32-59 | If the model answers every window of two to `k` passages with an ordering of it, the window ranker returns an ordering of `0 .. n-1` for every window of at most `k`. |
| ContextRankingListwise.WellBehavedPermutes | src/rag_pipeline/mad_skillz/context_ranking_listwise.py:26-59 | Such a model makes the window ranker a permuting ranker on windows of at most `k`. |
| ContextRankingListwise.RewriteKeepsPermutation | src/rag_pipeline/mad_skillz/context_ranking_listwise.py:79-81 | Rewriting a window of an ordering of `0 .. n-1` by an ordering of the window leaves an ordering of `0 .. n-1`. |
| ContextRankingListwise.StepKeepsPermutation | src/rag_pipeline/mad_skillz/context_ranking_listwise.py:73-81 | With a ranker that permutes every window of at most `k`, a window step of size `k` never raises, keeps the length and keeps `indices` an ordering. |
| ContextRankingListwise.RunKeepsPermutation | src/rag_pipeline/mad_skillz/context_ranking_listwise.py:70-89 | With a ranker that permutes every window of at most `k`, any run of window steps of size `k` never raises and keeps `indices` an ordering of `0 .. n-1`. |
| ContextRankingListwise.ProgressiveIsPermutation | src/rag_pipeline/mad_skillz/context_ranking_listwise.py:61-91 | With a ranker that permutes every window of at most `k`, progressive reranking never raises, keeps both lists at length `n` and returns an ordering of `0 .. n-1`. |
| ContextRankingListwise.ModelProgressiveIsPermutation | src/rag_pipeline/mad_skillz/context_ranking_listwise.py:26-91 | The same holds for the window ranker under a model that answers every window of two to `k` passages, the only windows it is shown, with an ordering of it. |
| ContextRankingListwise.OffsetsCover | src/rag_pipeline/mad_skillz/context_ranking_listwise.py:66-89 | With `k >= 2`, every position `j < n` lies in some window. |
| ContextRankingListwise.OffsetsShape | src/rag_pipeline/mad_skillz/context_ranking_listwise.py:66-89 | See the list below. |
| ContextRankingListwise.TenContextsWindowFour | src/rag_pipeline/mad_skillz/context_ranking_listwise.py:66-89 | Ten contexts with window four visit offsets 6, 4, 2, 0, that is windows [6,10), [4,8), [2,6), [0,4). |
| ContextRankingListwise.UnitWindowNeverExits | src/rag_pipeline/mad_skillz/context_ranking_listwise.py:67-83 | With `k = 1` and `n > 1`, the offset is `n - 1 > 0` after any number of passes, so the loop never ends. |
| ContextRankingListwise.ContextRankingFactoryFixed | src/rag_pipeline/mad_skillz/context_ranking_listwise.py:23-24 | The corrected check rejects exactly `k < 2`. Every accepted size has a step `k // 2 >= 1`. |
| ContextRankingListwise.FixedWindowLoopExits | src/rag_pipeline/mad_skillz/context_ranking_listwise.py:67-83 | For every size the corrected check accepts, the offset after `t` passes is `n - k - t*(k//2)`. It is not positive once `t >= n`, so the loop ends. |
| ContextRankingListwise.OffsetAfter | src/rag_pipeline/mad_skillz/context_ranking_listwise.py:67-83 | The offset after `t` passes of `offset -= window_step`, starting from `n - k`. `OffsetAfterClosed` gives its closed form, and `UnitWindowNeverExits` and `FixedWindowLoopExits` use it. |
| ContextRankingListwise.OffsetAfterClosed | src/rag_pipeline/mad_skillz/context_ranking_listwise.py:67-83 | For any window size, the offset after `t` passes of `offset -= window_step` is `n - k - t*(k//2)`. |
| ContextRankingListwise.WindowsFromAt | src/rag_pipeline/mad_skillz/context_ranking_listwise.py:72-83 | Before the closing pass, visited window `t` starts at `offset - t*step`, which is positive. |
| ContextRankingListwise.WindowsFromEnds | src/rag_pipeline/mad_skillz/context_ranking_listwise.py:72-83 | One step after the last window before the closing pass the offset is no longer positive, so the loop test fails there. |
| ContextRankingListwise.OffsetsFollowLoop | src/rag_pipeline/mad_skillz/context_ranking_listwise.py:66-89 | `Offsets` is what the loop as written visits: entry `t` before the last is the offset after `t` passes, still positive; after the last loop pass the offset is not positive and the final entry is the closing pass at 0. |
| ContextRankingListwise.FixedReplyRanks | src/rag_pipeline/mad_skillz/context_ranking_listwise.py:32-59 | A model that always replies with the same ranking in the invited format is read as exactly that ranking on every window of two or more. |
| ContextRankingListwise.FirstWindowRaises | src/rag_pipeline/mad_skillz/context_ranking_listwise.py:72-81 | If the ranker gives the first window, the last `k` contexts, a number outside it, progressive reranking ends there with `IndexError` and the lists untouched. |
| ContextRankingListwise.OneBasedPair | src/rag_pipeline/mad_skillz/context_ranking_listwise.py:36-59 | A 1-based reply `[2, 1]` to a two-passage prompt is read as `[2, 1]`, which is not an ordering of `0 .. 1`. |
| ContextRankingListwise.OneBasedRankingRaises | src/rag_pipeline/mad_skillz/context_ranking_listwise.py:36-81 | For every window size `k >= 2` and more than `k` contexts, a model whose reply to the first window parses to the numbers `1 .. k` in any order makes progressive reranking raise `IndexError` on that window, with the caller's lists. |
| ContextRankingListwise.OneBasedReplyRaises | src/rag_pipeline/mad_skillz/context_ranking_listwise.py:57-81 | With window 2 and more than two contexts, the model that always answers `[2, 1]` makes progressive reranking raise `IndexError` on its first window. |
| Text.Strip | src/rag_pipeline/mad_skillz/context_ranking_listwise.py:57 | `str.strip(chars)`: leading, then trailing characters of the set removed. `StripCount` shows it adds no occurrence. |
| Text.LStrip | src/rag_pipeline/mad_skillz/context_ranking_listwise.py:57 | `str.lstrip(chars)`. `LStripSuffix` shows it keeps a suffix, that all it drops is in the set, and that what it keeps starts outside the set. |
| Text.RStrip | src/rag_pipeline/mad_skillz/context_ranking_listwise.py:57 | `str.rstrip(chars)`. `RStripPrefix` shows it keeps a prefix, that all it drops is in the set, and that what it keeps ends outside the set. |
| Text.Drop | src/rag_pipeline/mad_skillz/context_ranking_listwise.py:57 | The slice `s[16:]`, generalised to `s[n:]`: a suffix of `s`, `n` characters shorter when `s` has at least `n`, and empty otherwise. `DropCount` shows it adds no occurrence. |
| Text.Count | src/rag_pipeline/mad_skillz/context_ranking_listwise.py:57-58 | How often a character occurs in a string. `CountSlice`, `StripCount`, `RemoveCharCount`, `DropCount` and `SplitCount` use it to count commas through the reply pipeline. |
| Text.Split | src/rag_pipeline/mad_skillz/context_ranking_listwise.py:58 | `str.split` on one character: always at least one piece. `SplitCount`, `SplitPiecesFree`, `SplitJoin` and `JoinSplit` give its shape. |
| Text.Join | src/rag_pipeline/generating.py:35 | `sep.join(parts)`: `""` for no parts, the part itself for one. `JoinLength`, `JoinAppend`, `JoinPlacesPiece` and `JoinSeparatesPiece` give its layout. |
| Text.Lower | src/rag_pipeline/mad_skillz/lm_vs_lm.py:71 | `str.lower()` on ASCII letters, one character for each character. |
| Text.Contains | src/rag_pipeline/mad_skillz/lm_vs_lm.py:71 | Python's `t in s` on strings: `t` starts at some position of `s`. `YesWantsMore` uses it. |
| Text.ParseNat | src/rag_pipeline/mad_skillz/context_ranking_listwise.py:59 | `int(num)` on a string of ASCII digits, leading zeros allowed. |
| Text.NatToString | src/rag_pipeline/mad_skillz/context_ranking_listwise.py:38 | The numeral an f-string gives a non-negative int: all digits, and `ParseNat` reads `n` back. |
| Text.SplitJoin | src/rag_pipeline/mad_skillz/context_ranking_listwise.py:58 | Splitting on `,` a comma-join of comma-free tokens gives the tokens back. |
| Text.JoinSplit | src/rag_pipeline/mad_skillz/context_ranking_listwise.py:58 | Joining with `,` the tokens of a split on `,` gives the text back. |
| Text.RemoveChar | src/rag_pipeline/mad_skillz/context_ranking_listwise.py:57 | `replace(" ", "")` leaves no space. |
| Text.SplitCount | src/rag_pipeline/mad_skillz/context_ranking_listwise.py:58 | A split on `,` has one more piece than the text has commas. |
| Text.SplitPiecesFree | src/rag_pipeline/mad_skillz/context_ranking_listwise.py:58 | No piece of a split on `,` holds a comma. |
| Text.StripCount | src/rag_pipeline/mad_skillz/context_ranking_listwise.py:57 | `strip` never adds an occurrence of a character. |
| LmVsLm.SetupPrompt | src/rag_pipeline/mad_skillz/lm_vs_lm.py:26 | The setup prompt with the claim quoted in it. `SetupPromptQuotesClaim` shows it is the fixed head, the claim verbatim, then the fixed tail. |
| LmVsLm.SetupPromptQuotesClaim | src/rag_pipeline/mad_skillz/lm_vs_lm.py:26 | The setup prompt is the fixed head, the claim verbatim and the fixed tail, and no more. |
| LmVsLm.Opening | src/rag_pipeline/mad_skillz/lm_vs_lm.py:27-33 | The examiner's first conversation: just the setup prompt as a user message. `InterviewCalls` shows the first questions are the examiner's reply to it. |
| LmVsLm.WantsMore | src/rag_pipeline/mad_skillz/lm_vs_lm.py:71 | The examiner asks for another round when its reply, lower-cased, contains "yes". `AnotherRoundIff` and `YesWantsMore` are proved about it. |
| LmVsLm.JudgedIncorrect | src/rag_pipeline/mad_skillz/lm_vs_lm.py:92 | The verdict is "incorrect" when the reply, lower-cased, contains it. `FactualityVerdict` ties it to the score. |
| LmVsLm.FollowUp | src/rag_pipeline/mad_skillz/lm_vs_lm.py:42-79 | The follow-up loop from a given round: the examinee answers; after the fourth answer the loop breaks; otherwise the follow-up prompt is added, the examiner replies, and another round follows when the reply contains "yes". `LmVsLmFactuality` is proved equal to it, and `FollowUpShape`, `FollowUpPromptsEnd`, `FollowUpChain` and `FollowUpEndsWith` describe it. |
| LmVsLm.FollowUpShape | src/rag_pipeline/mad_skillz/lm_vs_lm.py:42-79 | See the list below. |
| LmVsLm.FollowUpPromptsEnd | src/rag_pipeline/mad_skillz/lm_vs_lm.py:46-59 | Every conversation the examiner is shown in the loop ends with the examinee's answer to that round's questions in that round, then the follow-up prompt. |
| LmVsLm.FollowUpChain | src/rag_pipeline/mad_skillz/lm_vs_lm.py:62-72 | The questions of each later round are the examiner's reply to the conversation it was shown in the round before. |
| LmVsLm.FollowUpEndsWith | src/rag_pipeline/mad_skillz/lm_vs_lm.py:50-79 | After the loop, the examiner's conversation ends with its last reply when it stopped asking. When the loop broke after the fourth round, it ends with the examinee's last answer. |
| LmVsLm.AnotherRoundIff | src/rag_pipeline/mad_skillz/lm_vs_lm.py:54-79 | Another round follows exactly when the round counter is at most 3 and the examiner's lower-cased reply to the follow-up prompt contains "yes". |
| LmVsLm.Interview | src/rag_pipeline/mad_skillz/lm_vs_lm.py:26-79 | The whole interview: the examiner's first questions on the opening, then the follow-up rounds from round 1. `InterviewCalls` bounds its calls. |
| LmVsLm.InterviewCalls | src/rag_pipeline/mad_skillz/lm_vs_lm.py:26-91 | See the list below. |
| LmVsLm.EagerExaminerUsesAllRounds | src/rag_pipeline/mad_skillz/lm_vs_lm.py:37-60 | An examiner that always asks for more meets the round bound exactly: four examinee calls and three follow-up examiner calls. |
| LmVsLm.RoundsWhenEager | src/rag_pipeline/mad_skillz/lm_vs_lm.py:42-79 | From round `r`, such an examiner gets `5 - r` examinee calls and `4 - r` follow-up calls. |
| LmVsLm.SatisfiedExaminerStopsAtOnce | src/rag_pipeline/mad_skillz/lm_vs_lm.py:71-79 | An examiner that never says "yes" ends the loop after one examinee call and one follow-up examiner call. |
| LmVsLm.YesWantsMore | src/rag_pipeline/mad_skillz/lm_vs_lm.py:71 | A reply beginning with "Yes" passes the case-insensitive "yes" test. |
| LmVsLm.DecisionConversation | src/rag_pipeline/mad_skillz/lm_vs_lm.py:81-89 | The conversation of the conclusion call: the interview's final history, then the decision prompt. `InterviewCalls` shows it opens with the setup prompt and ends with the decision prompt. |
| LmVsLm.Score | src/rag_pipeline/mad_skillz/lm_vs_lm.py:92 | `float("incorrect" not in reply.lower())`: 0.0 for a verdict judged incorrect, otherwise 1.0. |
| LmVsLm.Factuality | src/rag_pipeline/mad_skillz/lm_vs_lm.py:21-92 | What `lm_vs_lm_factuality` returns: the score of the examiner's reply to the decision conversation. `LmVsLmFactuality` is proved to return it, and `FactualityVerdict` states when it is 1.0 and when 0.0. |
| LmVsLm.FactualityVerdict | src/rag_pipeline/mad_skillz/lm_vs_lm.py:92 | The score is 1.0 exactly when the verdict does not contain "incorrect" in any case, and 0.0 exactly when it does. |
| LmVsLm.LmVsLmFactuality | src/rag_pipeline/mad_skillz/lm_vs_lm.py:21-92 | See the list below. |
| SelfCheck.Samples | src/rag_pipeline/mad_skillz/self_check.py:17-35 | The five answers to `Question: <question>`, draw `i` at position `i`. `DrawSamples` proves the sampling loop computes exactly this list. |
| SelfCheck.DrawSamples | src/rag_pipeline/mad_skillz/self_check.py:17-35 | The sampling loop returns `Samples` and sends the sampling prompt exactly five times. Only the llamafile branch is taken. |
| SelfCheck.Supported | src/rag_pipeline/mad_skillz/self_check.py:59 | The judge finds the sentence supported when its reply, lower-cased, contains "yes". `VerdictsCount` counts these. |
| SelfCheck.Verdict | src/rag_pipeline/mad_skillz/self_check.py:59 | `float("yes" in response.lower())`: 1.0 when supported, otherwise 0.0. |
| SelfCheck.Verdicts | src/rag_pipeline/mad_skillz/self_check.py:45-59 | The list `scores` for a sentence: one verdict per sample, in sample order, verdict `j` on the judge's reply about sample `j`. |
| SelfCheck.SupportCount | src/rag_pipeline/mad_skillz/self_check.py:45-59 | How many samples the judge finds the sentence supported by. `SupportCountBound` bounds it by the number of samples, and `VerdictsCount` shows it is the sum of the verdicts. |
| SelfCheck.SentenceScore | src/rag_pipeline/mad_skillz/self_check.py:45-60 | A sentence's score, the mean of its verdicts over the samples. `SentenceScoreShare` proves it is the share of "yes" replies, in [0,1]. |
| SelfCheck.SentenceScores | src/rag_pipeline/mad_skillz/self_check.py:42-60 | The list `sentences_scores`: one score per sentence, in sentence order, entry `i` the score of sentence `i`. |
| SelfCheck.Score | src/rag_pipeline/mad_skillz/self_check.py:37-62 | The overall score: 0.0 without sentences, otherwise the mean sentence score. `ScoreBounds` puts it in [0,1]. |
| SelfCheck.SelfCheckScore | src/rag_pipeline/mad_skillz/self_check.py:13-62 | What `self_check` returns: the overall score of the sentences against the five samples. `SelfCheck` is proved to return it and to lie in [0,1]. |
| SelfCheck.SumBounds | src/rag_pipeline/mad_skillz/self_check.py:60-62 | A sum of values in [0,1] lies in [0, length]. |
| SelfCheck.SumConstant | src/rag_pipeline/mad_skillz/self_check.py:60-62 | A sum of `n` copies of `c` is `n * c`. |
| SelfCheck.ShareBounds | src/rag_pipeline/mad_skillz/self_check.py:60-62 | A part over a positive whole that contains it lies in [0,1]. |
| SelfCheck.MeanBounds | src/rag_pipeline/mad_skillz/self_check.py:60-62 | The mean of values in [0,1] lies in [0,1]. |
| SelfCheck.VerdictsCount | src/rag_pipeline/mad_skillz/self_check.py:59-60 | The sum of a sentence's verdicts is the number of samples whose judge reply contains "yes" in any case. |
| SelfCheck.SupportCountBound | src/rag_pipeline/mad_skillz/self_check.py:59 | At most one "yes" per sample. |
| SelfCheck.SentenceScoreShare | src/rag_pipeline/mad_skillz/self_check.py:59-60 | A sentence score is the count of "yes" replies over the number of samples, and lies in [0,1]. |
| SelfCheck.ScoreBounds | src/rag_pipeline/mad_skillz/self_check.py:37-62 | The overall score lies in [0,1], and is 0.0 without sentences. |
| SelfCheck.UnanimousSentence | src/rag_pipeline/mad_skillz/self_check.py:45-60 | A judge that always, or never, finds support scores every sentence 1.0, or 0.0. |
| SelfCheck.UnanimousJudge | src/rag_pipeline/mad_skillz/self_check.py:42-62 | A judge that always, or never, finds support gives a non-empty output the score 1.0, or 0.0. |
| SelfCheck.JudgeRow | src/rag_pipeline/mad_skillz/self_check.py:45-58 | One judge prompt per sample for a sentence, in sample order, each naming that sample as context. `JudgeCallsLayout` and `ScoreSentence` use it: the judge calls form one such row per sentence, and the inner loop makes exactly that row. |
| SelfCheck.JudgeCalls | src/rag_pipeline/mad_skillz/self_check.py:43-59 | The judge prompts of the nested loops, one row per sentence in sentence order. `JudgeCallsLength`, `JudgeCallAt` and `JudgeCallsLayout` give its layout. |
| SelfCheck.JudgeCallsLength | src/rag_pipeline/mad_skillz/self_check.py:43-59 | There are exactly `len(sentences) * len(samples)` judge calls. |
| SelfCheck.JudgeCallAt | src/rag_pipeline/mad_skillz/self_check.py:43-59 | Call `i * len(samples) + j` exists and asks about sentence `i` against sample `j`. |
| SelfCheck.JudgeCallsLayout | src/rag_pipeline/mad_skillz/self_check.py:43-59 | The same for every sentence `i` and sample `j`: the calls form a table with one row per sentence and one column per sample. |
| SelfCheck.NextSentenceScores | src/rag_pipeline/mad_skillz/self_check.py:43-60 | Scoring one more sentence appends its score to the list of sentence scores. |
| SelfCheck.NextSentenceCalls | src/rag_pipeline/mad_skillz/self_check.py:43-59 | Scoring one more sentence appends its row of judge calls. |
| SelfCheck.ScoreSentence | src/rag_pipeline/mad_skillz/self_check.py:44-60 | The inner loop returns the sentence's score and makes that sentence's row of judge calls, in sample order. |
| SelfCheck.SelfCheck | src/rag_pipeline/mad_skillz/self_check.py:13-62 | See the list below. |
| Generating.PageContents | src/rag_pipeline/generating.py:35 | The list comprehension of page contents, one per document, in order. `FormatDocsInOrder` uses it to place each page content in the joined context. |
| Generating.FormatDocs | src/rag_pipeline/generating.py:35 | No documents give "". One document gives exactly its page content. |
| Generating.FormatDocsLength | src/rag_pipeline/generating.py:35 | For `n >= 1` documents, the length is the sum of the page-content lengths plus `2 * (n - 1)`. |
| Generating.FormatDocsAppend | src/rag_pipeline/generating.py:35 | Formatting two non-empty batches puts one `"\n\n"` between their two formats. |
| Generating.FormatDocsIgnoresMetadata | src/rag_pipeline/generating.py:27-35 | Documents with equal page contents format equally, whatever their metadata. |
| Generating.JoinPlacesPiece | src/rag_pipeline/generating.py:35 | In a join, piece `i` sits at its start offset: after every earlier piece and a separator for each. |
| Generating.JoinSeparatesPiece | src/rag_pipeline/generating.py:35 | In a join, a separator follows every piece but the last. |
| Generating.FormatDocsInOrder | src/rag_pipeline/generating.py:35 | Each page content sits, in input order, at the offset after the earlier contents and their blank lines, and `"\n\n"` follows every content but the last. |

Details of the longer contracts:

- `ContextRankingListwise.ListwiseReranking`:
  - the result equals `Listwise`;
  - on 0 or 1 contexts it returns `range(n)` and sends no prompt;
  - otherwise it sends exactly one prompt, `Prompt(query, contexts)`, and returns at most one more number than the reply has commas.
- `ContextRankingListwise.Rewrite`: the slice assignment `s[a:b] = [s[a:b][i] for i in order]`:
  - the length changes by `|order| - (b - a)`;
  - the prefix before `a` is kept;
  - position `a + t` holds `s[a + order[t]]`;
  - the suffix after the window is kept, shifted.
- `ContextRankingListwise.WindowStep`:
  - it raises `IndexError` exactly when the ranker's order has a number outside the clamped window, and then the lists are unchanged;
  - otherwise both lists are rewritten with the same order, on the window's clamped bounds.
- `ContextRankingListwise.ProgressiveReranking`:
  - the result equals `Progressive` with the window ranker;
  - when `len(contexts) <= k`, it is exactly one `listwise_reranking` call on the whole list, over the one window at 0;
  - otherwise, the windows visited are `Offsets(n, k)`, or a non-empty prefix of them when a window raises;
  - a finished run leaves the two lists in step.
- `ContextRankingListwise.SlidingWindows`: the `while` loop and the closing pass:
  - the result equals the run of window steps over `Offsets(n, k)` from the identity index list;
  - the windows visited are those offsets, or a non-empty prefix of them when a window raises.
- `ContextRankingListwise.OffsetsShape`:
  - the windows start at `n - k`;
  - while positive, each falls by `k // 2` or is clamped to the closing pass at 0;
  - they end at 0;
  - every window `[o, o + k)` lies inside the list.
- `LmVsLm.FollowUpShape`: from round `r`:
  - 1 to `5 - r` examinee calls;
  - the first examinee call is on the pending questions, and every later one is on an examiner reply containing "yes";
  - one examiner call per non-breaking round, at most `4 - r`;
  - the history's length grows by one answer per examinee call and by the follow-up prompt and reply per examiner call, and `FollowUpPromptsEnd`, `FollowUpChain` and `FollowUpEndsWith` state what is appended;
  - the earlier history is untouched.
- `LmVsLm.InterviewCalls`:
  - 1 to 4 examinee calls, the first on the examiner's opening reply;
  - between 3 and 5 examiner calls in all, since the first round never breaks;
  - the conclusion is asked on a conversation that opens with the setup prompt and ends with the decision prompt.
- `LmVsLm.LmVsLmFactuality`:
  - the score equals `Factuality`;
  - the examinee is shown exactly the interview's questions, in order;
  - the examiner is shown the opening, then the conversation of every non-breaking round, then the decision conversation.
- `SelfCheck.SelfCheck`:
  - the score equals `SelfCheckScore` and lies in [0,1];
  - exactly five sampling prompts are sent, each `Question: <question>`;
  - the judge prompts are exactly `JudgeCalls` over the samples and sentences, so there are none without sentences.

## Left out

- Language-model calls (`call_openai`, `Llamafile().invoke`) are oracle parameters that always return a string. Network failures and retries are not modelled.
- `call_openai` returning `None` is not modelled. Its effect differs by call site:
  - In `lm_vs_lm.py`, a `None` from the examiner's opening call (lines 28-33) raises nothing. The guard at line 42 skips the loop, and the decision call at lines 86-92 still returns a score, with no examinee call at all. `InterviewCalls`' lower bound of one examinee call holds only because the examiner oracle always returns a string.
  - A `None` from a follow-up examiner call (lines 62-67) raises at `.lower()` on line 71, and one from the decision call raises at `.lower()` on line 92.
  - In `context_ranking_listwise.py`, a `None` reply raises at `.strip` on line 57.
  - In `self_check.py`, a `None` judge reply raises at `.lower()` on line 59.
- `sent_tokenize` is not modelled: the sentences of the output are an input sequence.
- The randomness of the sampler and of the examinee is the draw number or the round number passed to them. The model says nothing about the distribution of their answers.
- `lower()` and `isdigit()` are ASCII lower-casing and ASCII digits. Unicode case mapping and Unicode digits are not modelled.
- Python floats are Dafny `real`, with no rounding.
- The `context_ranking` wrapper is not modelled: it reads the log fields, prints, scores with parea's `ndcg` and raises `NotImplementedError` for other measurements. Those are I/O and a foreign library.
- The factories' other parameters (model name, Azure flag, field names) only select the oracle, so they are not modelled.
- The write-only `messages_examinee` list of `lm_vs_lm.py` is not modelled, and neither is its tuple-`+=` line. The ghost call logs record what the examinee is shown instead.
- ContextRankingListwise.SlidingWindows: when a window raises, the log is proved to be a non-empty prefix of the offsets. That its last entry is the window that raised is not proved.
- ContextRankingListwise.ProgressiveReranking: requires `k >= 2`, unless the list fits in the window. For `k = 1` and more than one context the source loops forever, which `UnitWindowNeverExits` states instead.
- The prompt of the self-check sampler's unused `call_openai` branch (`use_llamafile` is always true) is not modelled.
- `hub.pull` and the generator classes of `generating.py` are LangChain wiring and are not part of this model.

## Findings

| source | as written | input that shows it | evidently intended | confidence | as-written member | corrected member |
|---|---|---|---|---|---|---|
| src/rag_pipeline/mad_skillz/context_ranking_listwise.py:23-24 | the factory accepts every `n_contexts_to_rank >= 1`; the loop at lines 72-83 steps by `n_contexts_to_rank // 2` | `n_contexts_to_rank = 1` with two or more contexts: the step is 0 and `offset` stays at `n - 1` | reject window sizes below 2, so that the step is at least 1 and the loop ends | not executed | ContextRankingListwise.UnitWindowNeverExits | ContextRankingListwise.FixedWindowLoopExits |
