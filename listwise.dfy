/** Listwise context reranking: a window ranker that asks a language model to sort
    a handful of passages by relevance to a query, and the progressive reranker
    that slides that window over a longer context list, from the tail to the head,
    rewriting the list in place.

    The language model is the parameter `llm`, the reply it gives to a prompt. */
module ContextRankingListwise {
  import opened Text

  // ================================================================ factory

  /** What the factory yields: the window size its rerankers close over, or the
      `ValueError` it raises. */
  datatype Factory = Configured(windowSize: nat) | ValueError(message: string)

  const WindowSizeError := "n_contexts_to_rank must be at least 1."

  /** The factory's only check on its arguments, done before any ranking
      function exists and so before any model call. */
  function ContextRankingFactory(nContextsToRank: int): (r: Factory)
    ensures r.ValueError? <==> nContextsToRank < 1
    ensures r.ValueError? ==> r.message == WindowSizeError
    ensures r.Configured? ==> r.windowSize == nContextsToRank
  {
    if nContextsToRank < 1 then ValueError(WindowSizeError) else Configured(nContextsToRank)
  }

  /** The check the progressive loop needs: a window of one context gives a step
      of zero, and the loop then never ends (see `UnitWindowNeverExits`). */
  function ContextRankingFactoryFixed(nContextsToRank: int): (r: Factory)
    ensures r.ValueError? <==> nContextsToRank < 2
    ensures r.Configured? ==> r.windowSize == nContextsToRank && r.windowSize / 2 >= 1
  {
    if nContextsToRank < 2 then ValueError("n_contexts_to_rank must be at least 2.")
    else Configured(nContextsToRank)
  }

  // ================================================================ the prompt

  /** `list(range(n))`. */
  function Range(n: nat): (r: seq<nat>)
    ensures |r| == n && forall i :: 0 <= i < n ==> r[i] == i
  {
    seq(n, i requires 0 <= i < n => i as nat)
  }

  /** The line that presents one passage under its 1-based number. */
  function PassageLine(number: nat, passage: string): string
  {
    NatToString(number) + " = " + passage + "\n"
  }

  /** The passages, one line each, numbered from `first` on. */
  function NumberedPassages(passages: seq<string>, first: nat): string
    decreases |passages|
  {
    if |passages| == 0 then ""
    else PassageLine(first, passages[0]) + NumberedPassages(passages[1..], first + 1)
  }

  function PromptFooter(query: string, n: nat): string
  {
    "Query = " + query + "\n        Passages = [1, ..., " + NatToString(n)
    + "]\n        Sort the Passages by their relevance to the Query.\n        Sorted Passages = ["
  }

  /** The prompt sent for a window of passages. */
  function Prompt(query: string, passages: seq<string>): string
  {
    NumberedPassages(passages, 1) + PromptFooter(query, |passages|)
  }

  lemma {:induction false} NumberedPassagesAppend(xs: seq<string>, ys: seq<string>, first: nat)
    ensures NumberedPassages(xs + ys, first)
         == NumberedPassages(xs, first) + NumberedPassages(ys, first + |xs|)
    decreases |xs|
  {
    if |xs| == 0 {
      assert xs + ys == ys;
    } else {
      assert (xs + ys)[1..] == xs[1..] + ys;
      NumberedPassagesAppend(xs[1..], ys, first + 1);
    }
  }

  /** Passage `t` of the window appears in the prompt under the number `t + 1`,
      after the passages before it and before those after it. */
  lemma PromptListsPassage(query: string, passages: seq<string>, t: nat)
    requires t < |passages|
    ensures Prompt(query, passages)
         == NumberedPassages(passages[..t], 1) + PassageLine(t + 1, passages[t])
            + NumberedPassages(passages[t + 1..], t + 2) + PromptFooter(query, |passages|)
  {
    assert passages == passages[..t] + passages[t..];
    NumberedPassagesAppend(passages[..t], passages[t..], 1);
    assert passages[t..][1..] == passages[t + 1..];
  }

  /** Builds the prompt as the source does, one line per passage appended in turn. */
  method BuildPrompt(query: string, contexts: seq<string>) returns (prompt: string)
    ensures prompt == Prompt(query, contexts)
  {
    prompt := "";
    for i := 0 to |contexts|
      invariant prompt == NumberedPassages(contexts[..i], 1)
    {
      assert contexts[..i + 1] == contexts[..i] + [contexts[i]];
      NumberedPassagesAppend(contexts[..i], [contexts[i]], 1);
      assert NumberedPassages([contexts[i]], i + 1) == PassageLine(i + 1, contexts[i]);
      prompt := prompt + PassageLine(i + 1, contexts[i]);
    }
    assert contexts[..|contexts|] == contexts;
    prompt := prompt + PromptFooter(query, |contexts|);
  }

  // ================================================================ parsing the reply

  const StripChars: set<char> := {'[', ']', ' '}

  /** How many characters the parse drops, after removing spaces, in front of the
      numbers: the length of "SortedPassages=[". */
  const ReplyPrefixLength: nat := 16

  /** The integer value of every all-digit token, in order; other tokens are dropped. */
  function ParseNumbers(tokens: seq<string>): (r: seq<nat>)
    ensures |r| <= |tokens|
    decreases |tokens|
  {
    if |tokens| == 0 then []
    else (if IsDigits(tokens[0]) then [ParseNat(tokens[0])] else []) + ParseNumbers(tokens[1..])
  }

  /** Parsing keeps the order of the tokens. */
  lemma {:induction false} ParseNumbersAppend(xs: seq<string>, ys: seq<string>)
    ensures ParseNumbers(xs + ys) == ParseNumbers(xs) + ParseNumbers(ys)
    decreases |xs|
  {
    if |xs| == 0 {
      assert xs + ys == ys;
    } else {
      var head := if IsDigits(xs[0]) then [ParseNat(xs[0])] else [];
      assert (xs + ys)[0] == xs[0];
      assert (xs + ys)[1..] == xs[1..] + ys;
      assert ParseNumbers(xs + ys) == head + ParseNumbers(xs[1..] + ys);
      ParseNumbersAppend(xs[1..], ys);
    }
  }

  /** The text the numbers are read from: the reply stripped of brackets and
      spaces at both ends, with every space deleted and the first 16 characters
      dropped. */
  function NumbersText(reply: string): string
  {
    Drop(RemoveChar(Strip(reply, StripChars), ' '), ReplyPrefixLength)
  }

  lemma NumbersTextCommas(reply: string)
    ensures Count(NumbersText(reply), ',') <= Count(reply, ',')
  {
    var stripped := Strip(reply, StripChars);
    StripCount(reply, StripChars, ',');
    RemoveCharCount(stripped, ' ', ',');
    DropCount(RemoveChar(stripped, ' '), ReplyPrefixLength, ',');
  }

  /** How the window ranker reads the model's reply: split the numbers text on
      commas and keep the value of every all-digit token. The numbers are kept as
      they stand: neither shifted to 0-based nor checked against the window. */
  function ParseReply(reply: string): (r: seq<nat>)
    ensures |r| <= 1 + Count(reply, ',')
  {
    NumbersTextCommas(reply);
    SplitCount(NumbersText(reply), ',');
    ParseNumbers(Split(NumbersText(reply), ','))
  }

  /** The numerals of a ranking. */
  function Numerals(ranking: seq<nat>): (r: seq<string>)
    ensures |r| == |ranking| && forall i :: 0 <= i < |r| ==> r[i] == NatToString(ranking[i])
  {
    seq(|ranking|, i requires 0 <= i < |ranking| => NatToString(ranking[i]))
  }

  const ReplyPrefix := "Sorted Passages = ["

  /** A reply in the shape the prompt invites: its last line echoed, with the
      ranking filled in. */
  function ReplyFor(ranking: seq<nat>): string
  {
    ReplyPrefix + Join(Numerals(ranking), ", ") + "]"
  }

  lemma {:induction false} ParseNumerals(ranking: seq<nat>)
    ensures ParseNumbers(Numerals(ranking)) == ranking
    decreases |ranking|
  {
    if |ranking| > 0 {
      ParseNumerals(ranking[1..]);
      assert Numerals(ranking)[1..] == Numerals(ranking[1..]);
    }
  }

  /** Removing the spaces of a space-free part, one space and a rest. */
  lemma RemoveSpaceAfter(part: string, rest: string)
    requires ' ' !in part
    ensures RemoveChar(part + " " + rest, ' ') == part + RemoveChar(rest, ' ')
  {
    assert part + " " + rest == part + ([' '] + rest);
    RemoveCharAppend(part, [' '] + rest, ' ');
    RemoveCharAbsent(part, ' ');
    RemoveCharCons(' ', rest, ' ');
  }

  lemma RemoveSpacesAfterComma(part: string, rest: string)
    requires ' ' !in part
    ensures RemoveChar(part + ", " + rest, ' ') == part + "," + RemoveChar(rest, ' ')
  {
    assert part + ", " + rest == (part + ",") + " " + rest;
    RemoveSpaceAfter(part + ",", rest);
  }

  /** Removing the spaces of a ", "-join of space-free parts gives their ","-join. */
  lemma {:induction false} RemoveSpacesJoin(parts: seq<string>)
    requires forall i :: 0 <= i < |parts| ==> ' ' !in parts[i]
    ensures RemoveChar(Join(parts, ", "), ' ') == Join(parts, ",")
    decreases |parts|
  {
    if |parts| == 1 {
      RemoveCharAbsent(parts[0], ' ');
    } else if |parts| > 1 {
      RemoveSpacesJoin(parts[1..]);
      RemoveSpacesAfterComma(parts[0], Join(parts[1..], ", "));
    }
  }

  /** A numeral holds digits only. */
  lemma NumeralHasNo(n: nat, c: char)
    requires !IsAsciiDigit(c)
    ensures c !in NatToString(n)
  {
  }

  /** A reply that strips down to at most 17 characters, one of them a space,
      leaves no numbers text. */
  lemma ShortNumbersText(reply: string, stripped: string, i: nat)
    requires Strip(reply, StripChars) == stripped
    requires i < |stripped| <= ReplyPrefixLength + 1 && stripped[i] == ' '
    ensures NumbersText(reply) == ""
  {
    RemoveCharShortens(stripped, ' ', i);
  }

  lemma EmptyReplyNumbers()
    ensures NumbersText(ReplyFor([])) == ""
  {
    var reply := ReplyFor([]);
    assert reply == "Sorted Passages =" + " []";
    LStripKeeps(reply, StripChars);
    RStripTail("Sorted Passages =", " []", StripChars);
    ShortNumbersText(reply, "Sorted Passages =", 6);
  }

  /** With the space-free prefix exactly 16 characters long, the numbers text is
      what follows the prefix, spaces removed. */
  lemma NumbersTextAfter(reply: string, prefix: string, body: string)
    requires Strip(reply, StripChars) == prefix + body
    requires |RemoveChar(prefix, ' ')| == ReplyPrefixLength
    ensures NumbersText(reply) == RemoveChar(body, ' ')
  {
    RemoveCharAppend(prefix, body, ' ');
    var compact := RemoveChar(prefix, ' ') + RemoveChar(body, ' ');
    assert compact[ReplyPrefixLength..] == RemoveChar(body, ' ');
  }

  lemma ReplyPrefixCompact()
    ensures |RemoveChar(ReplyPrefix, ' ')| == ReplyPrefixLength
  {
    assert ' ' !in "Sorted" && ' ' !in "Passages" && ' ' !in "=" && ' ' !in "[";
    var tail := "=" + " " + "[";
    var rest := "Passages" + " " + tail;
    assert ReplyPrefix == "Sorted" + " " + rest;
    RemoveSpaceAfter("Sorted", rest);
    RemoveSpaceAfter("Passages", tail);
    RemoveSpaceAfter("=", "[");
    RemoveCharAbsent("[", ' ');
  }

  /** The numerals hold neither spaces nor commas, and a join of them ends in a digit. */
  lemma NumeralsJoin(ranking: seq<nat>)
    requires |ranking| > 0
    ensures forall i :: 0 <= i < |ranking| ==> ' ' !in Numerals(ranking)[i] && ',' !in Numerals(ranking)[i]
    ensures var body := Join(Numerals(ranking), ", "); |body| > 0 && IsAsciiDigit(body[|body| - 1])
  {
    var parts := Numerals(ranking);
    forall i | 0 <= i < |parts| ensures ' ' !in parts[i] && ',' !in parts[i] {
      NumeralHasNo(ranking[i], ' ');
      NumeralHasNo(ranking[i], ',');
    }
    var last := |parts| - 1;
    var body := Join(parts, ", ");
    if |parts| > 1 {
      assert parts == parts[..last] + [parts[last]];
      JoinAppend(parts[..last], [parts[last]], ", ");
    }
    assert body == body[..|body| - |parts[last]|] + parts[last];
    assert body[|body| - 1] == parts[last][|parts[last]| - 1];
  }

  /** Stripping a non-empty reply in the expected shape removes only the closing bracket. */
  lemma ReplyStrip(ranking: seq<nat>)
    requires |ranking| > 0
    ensures Strip(ReplyFor(ranking), StripChars) == ReplyPrefix + Join(Numerals(ranking), ", ")
  {
    var body := Join(Numerals(ranking), ", ");
    var reply := ReplyFor(ranking);
    assert reply[0] == 'S';
    LStripKeeps(reply, StripChars);
    NumeralsJoin(ranking);
    RStripTail(ReplyPrefix + body, "]", StripChars);
  }

  lemma ReplyNumbers(ranking: seq<nat>)
    requires |ranking| > 0
    ensures NumbersText(ReplyFor(ranking)) == Join(Numerals(ranking), ",")
  {
    var parts := Numerals(ranking);
    var body := Join(parts, ", ");
    assert NumbersText(ReplyFor(ranking)) == RemoveChar(body, ' ') by {
      ReplyStrip(ranking);
      ReplyPrefixCompact();
      NumbersTextAfter(ReplyFor(ranking), ReplyPrefix, body);
    }
    assert RemoveChar(body, ' ') == Join(parts, ",") by {
      NumeralsJoin(ranking);
      RemoveSpacesJoin(parts);
    }
  }

  /** Reading back a reply in the expected shape gives exactly the ranking it lists. */
  lemma ParseReplyFor(ranking: seq<nat>)
    ensures ParseReply(ReplyFor(ranking)) == ranking
  {
    if |ranking| == 0 {
      EmptyReplyNumbers();
      assert Split("", ',') == [""];
    } else {
      ReplyNumbers(ranking);
      NumeralsJoin(ranking);
      SplitJoin(Numerals(ranking), ',');
      ParseNumerals(ranking);
    }
  }

  // ================================================================ the window ranker

  /** What `listwise_reranking` returns: the identity order for 0 or 1 contexts,
      otherwise the parse of the model's reply to the window's prompt. */
  function Listwise(llm: string -> string, query: string, contexts: seq<string>): seq<nat>
  {
    if |contexts| <= 1 then Range(|contexts|) else ParseReply(llm(Prompt(query, contexts)))
  }

  /** The window ranker. `prompts` records the prompts sent to the model. */
  method ListwiseReranking(llm: string -> string, query: string, contexts: seq<string>)
    returns (order: seq<nat>, ghost prompts: seq<string>)
    ensures order == Listwise(llm, query, contexts)
    ensures |contexts| <= 1 ==> order == Range(|contexts|) && prompts == []
    ensures |contexts| >= 2 ==> prompts == [Prompt(query, contexts)]
    ensures |contexts| >= 2 ==> |order| <= 1 + Count(llm(prompts[0]), ',')
  {
    if |contexts| <= 1 {
      return Range(|contexts|), [];
    }
    var prompt := BuildPrompt(query, contexts);
    var sortedList := llm(prompt);
    order := ParseReply(sortedList);
    prompts := [prompt];
  }

  /** A window ranker: the order it gives a window of passages. */
  type Ranker = seq<string> -> seq<nat>

  /** `listwise_reranking` as the window ranker of progressive reranking. */
  function WindowRanker(llm: string -> string, query: string): Ranker
  {
    w => Listwise(llm, query, w)
  }

  // ================================================================ list slicing

  /** Where a Python slice `s[lo:hi]` of a list of length `n` starts and ends. */
  function SliceStart(n: nat, lo: nat): (a: nat)
    ensures a <= n
  {
    if lo < n then lo else n
  }

  function SliceEnd(n: nat, lo: nat, hi: nat): (b: nat)
    ensures SliceStart(n, lo) <= b <= n
  {
    var a := SliceStart(n, lo);
    if hi < a then a else if hi < n then hi else n
  }

  /** A position outside `[lo, hi)` lies outside the clamped slice too. */
  lemma OutsideSlice(n: nat, lo: nat, hi: nat, j: nat)
    requires lo <= hi && j < n && !(lo <= j < hi)
    ensures !(SliceStart(n, lo) <= j < SliceEnd(n, lo, hi))
  {
  }

  /** `s[lo:hi]`. */
  function Slice<T>(s: seq<T>, lo: nat, hi: nat): seq<T>
  {
    s[SliceStart(|s|, lo)..SliceEnd(|s|, lo, hi)]
  }

  /** `s[lo:hi] = t`: the list shrinks or grows when `|t|` differs from the slice. */
  function AssignSlice<T>(s: seq<T>, lo: nat, hi: nat, t: seq<T>): seq<T>
  {
    s[..SliceStart(|s|, lo)] + t + s[SliceEnd(|s|, lo, hi)..]
  }

  predicate WithinWindow(order: seq<nat>, size: nat)
  {
    forall t :: 0 <= t < |order| ==> order[t] < size
  }

  /** `[window[i] for i in order]`. */
  function Gather<T>(window: seq<T>, order: seq<nat>): (r: seq<T>)
    requires WithinWindow(order, |window|)
    ensures |r| == |order| && forall t :: 0 <= t < |order| ==> r[t] == window[order[t]]
  {
    seq(|order|, t requires 0 <= t < |order| => window[order[t]])
  }

  /** `s[a:b] = [s[a:b][i] for i in order]` on bounds already clamped: the window
      `[a, b)` rewritten in the given order. Only the window changes; it keeps its
      place and takes as many elements as `order` has. */
  function Rewrite<T>(s: seq<T>, a: nat, b: nat, order: seq<nat>): (r: seq<T>)
    requires a <= b <= |s| && WithinWindow(order, b - a)
    ensures |r| == |s| - (b - a) + |order|
    ensures forall j :: 0 <= j < a ==> r[j] == s[j]
    ensures forall t :: 0 <= t < |order| ==> r[a + t] == s[a + order[t]]
    ensures forall j :: a + |order| <= j < |r| ==> r[j] == s[j - |order| + (b - a)]
  {
    RewriteShape(s, a, b, order);
    s[..a] + Gather(s[a..b], order) + s[b..]
  }

  /** Where the elements of a rewritten window come from. */
  lemma RewriteShape<T>(s: seq<T>, a: nat, b: nat, order: seq<nat>)
    requires a <= b <= |s| && WithinWindow(order, b - a)
    ensures var r := s[..a] + Gather(s[a..b], order) + s[b..];
      && (forall t :: 0 <= t < |order| ==> r[a + t] == s[a + order[t]])
      && (forall j :: a + |order| <= j < |r| ==> r[j] == s[j - |order| + (b - a)])
  {
    var w := s[a..b];
    var g := Gather(w, order);
    var front := s[..a] + g;
    var r := front + s[b..];
    assert |front| == a + |order|;
    forall t | 0 <= t < |order|
      ensures r[a + t] == s[a + order[t]]
    {
      assert r[a + t] == front[a + t] == g[t] == w[order[t]];
    }
    forall j | a + |order| <= j < |r|
      ensures r[j] == s[j - |order| + (b - a)]
    {
      assert r[j] == s[b..][j - |front|];
    }
  }

  /** Where position `j` of a rewritten list takes its element from. */
  function Origin(a: nat, order: seq<nat>, j: nat): nat
  {
    if a <= j < a + |order| then a + order[j - a] else j
  }

  /** A rewrite by an order as long as the window moves elements only inside the
      window: position `j` takes the element at `Origin(j)`, and every position
      outside `[a, b)` keeps its element. */
  lemma RewriteFrame<T>(s: seq<T>, a: nat, b: nat, order: seq<nat>)
    requires a <= b <= |s| && WithinWindow(order, b - a) && |order| == b - a
    ensures var r := Rewrite(s, a, b, order);
      && |r| == |s|
      && (forall j :: 0 <= j < |s| ==> r[j] == s[Origin(a, order, j)])
      && (forall j :: 0 <= j < |s| && !(a <= j < b) ==> r[j] == s[j])
  {
    var r := Rewrite(s, a, b, order);
    forall j | 0 <= j < |s|
      ensures r[j] == s[Origin(a, order, j)]
    {
      if a <= j < b {
        var t := j - a;
        assert r[a + t] == s[a + order[t]];
      }
    }
  }

  /** The frame of a rewrite by an order as long as the window, stated on the
      unclamped window `[offset, offset + k)`. */
  lemma RewriteOutside<T>(s: seq<T>, offset: nat, k: nat, order: seq<nat>)
    requires |order| == |Slice(s, offset, offset + k)|
    requires WithinWindow(order, |order|)
    ensures var r := Rewrite(s, SliceStart(|s|, offset), SliceEnd(|s|, offset, offset + k), order);
      && |r| == |s|
      && forall j :: 0 <= j < |s| && !(offset <= j < offset + k) ==> r[j] == s[j]
  {
    var a := SliceStart(|s|, offset);
    var b := SliceEnd(|s|, offset, offset + k);
    assert |order| == b - a;
    RewriteFrame(s, a, b, order);
    var r := Rewrite(s, a, b, order);
    forall j | 0 <= j < |s| && !(offset <= j < offset + k)
      ensures r[j] == s[j]
    {
      OutsideSlice(|s|, offset, offset + k, j);
    }
  }

  // ================================================================ progressive reranking

  /** The result of progressive reranking. `contexts` is the caller's list as the
      in-place updates leave it; `IndexError` is the exception raised when a
      ranked number does not index its window. */
  datatype Rerank = Ranked(contexts: seq<string>, indices: seq<nat>) | IndexError(contexts: seq<string>)

  /** One window of the loop: rank `[offset, offset + k)` of the contexts and
      rewrite that window of both lists in the ranker's order; a number outside
      the window raises `IndexError` and leaves the lists as they were. */
  function WindowStep(rank: Ranker, contexts: seq<string>, indices: seq<nat>,
                      offset: nat, k: nat): (r: Rerank)
    requires |contexts| == |indices|
    ensures var order := rank(Slice(contexts, offset, offset + k));
      && (r.IndexError? <==> !WithinWindow(order, |Slice(contexts, offset, offset + k)|))
      && (r.IndexError? ==> r.contexts == contexts)
      && (r.Ranked? ==>
            var a := SliceStart(|contexts|, offset);
            var b := SliceEnd(|contexts|, offset, offset + k);
            && |r.contexts| == |r.indices|
            && r.contexts == Rewrite(contexts, a, b, order)
            && r.indices == Rewrite(indices, a, b, order))
  {
    var a := SliceStart(|contexts|, offset);
    var b := SliceEnd(|contexts|, offset, offset + k);
    var order := rank(contexts[a..b]);
    if WithinWindow(order, b - a) then
      Ranked(Rewrite(contexts, a, b, order), Rewrite(indices, a, b, order))
    else
      IndexError(contexts)
  }

  /** When the ranker returns as many numbers as the window holds, every position
      outside `[offset, offset + k)` of both lists is left as it was. */
  lemma StepFrame(rank: Ranker, contexts: seq<string>, indices: seq<nat>,
                  offset: nat, k: nat)
    requires |contexts| == |indices|
    requires WindowStep(rank, contexts, indices, offset, k).Ranked?
    requires |rank(Slice(contexts, offset, offset + k))| == |Slice(contexts, offset, offset + k)|
    ensures var r := WindowStep(rank, contexts, indices, offset, k);
      && |r.contexts| == |contexts| && |r.indices| == |indices|
      && forall j :: 0 <= j < |contexts| && !(offset <= j < offset + k) ==>
           r.contexts[j] == contexts[j] && r.indices[j] == indices[j]
  {
    var a := SliceStart(|contexts|, offset);
    var b := SliceEnd(|contexts|, offset, offset + k);
    var order := rank(contexts[a..b]);
    assert WithinWindow(order, |order|) && |order| == b - a;
    RewriteOutside(contexts, offset, k, order);
    RewriteOutside(indices, offset, k, order);
  }

  /** Runs the windows at `offsets` in turn, stopping at the first `IndexError`. */
  function Run(rank: Ranker, contexts: seq<string>, indices: seq<nat>,
               offsets: seq<nat>, k: nat): (r: Rerank)
    requires |contexts| == |indices|
    ensures r.Ranked? ==> |r.contexts| == |r.indices|
    decreases |offsets|
  {
    if |offsets| == 0 then
      Ranked(contexts, indices)
    else
      match WindowStep(rank, contexts, indices, offsets[0], k)
      case IndexError(cs) => IndexError(cs)
      case Ranked(cs, ix) => Run(rank, cs, ix, offsets[1..], k)
  }

  /** The window offsets the loop visits from `offset` on, `step` apart while they
      stay positive, then the closing pass at 0. */
  function WindowsFrom(offset: int, step: nat): (r: seq<nat>)
    requires step >= 1
    ensures |r| >= 1 && r[|r| - 1] == 0
    decreases offset
  {
    if offset <= 0 then [0] else [offset as nat] + WindowsFrom(offset - step, step)
  }

  /** The windows of progressive reranking over `n` contexts with window size `k`. */
  function Offsets(n: nat, k: nat): seq<nat>
    requires k >= 2
  {
    WindowsFrom(n - k, k / 2)
  }

  /** What `progressive_reranking` computes: one window call over the whole list
      when it fits, otherwise the sliding windows over the list and the identity
      index list. */
  function Progressive(rank: Ranker, contexts: seq<string>, k: nat): Rerank
    requires k >= 2 || (k >= 1 && |contexts| <= k)
  {
    if |contexts| <= k then Ranked(contexts, rank(contexts))
    else Run(rank, contexts, Range(|contexts|), Offsets(|contexts|, k), k)
  }

  /** The body of the sliding loop: rank the window at `offset` with
      `listwise_reranking` and write the reordered window back into both lists. */
  method RerankWindow(llm: string -> string, query: string, contexts: seq<string>, indices: seq<nat>,
                      offset: nat, k: nat)
    returns (r: Rerank)
    requires |contexts| == |indices|
    ensures r == WindowStep(WindowRanker(llm, query), contexts, indices, offset, k)
  {
    var windowContexts := Slice(contexts, offset, offset + k);
    var windowIndices := Slice(indices, offset, offset + k);
    var reranked;
    ghost var prompts;
    reranked, prompts := ListwiseReranking(llm, query, windowContexts);
    if !WithinWindow(reranked, |windowContexts|) {
      return IndexError(contexts);
    }
    var cs := AssignSlice(contexts, offset, offset + k, Gather(windowContexts, reranked));
    var ix := AssignSlice(indices, offset, offset + k, Gather(windowIndices, reranked));
    r := Ranked(cs, ix);
  }

  /** The progressive reranker, ranking each window with `listwise_reranking`.
      `windows` records the offset of every window handed to the ranker, the
      closing pass included. */
  method ProgressiveReranking(llm: string -> string, query: string, contexts: seq<string>, k: nat)
    returns (r: Rerank, ghost windows: seq<nat>)
    requires k >= 2 || (k >= 1 && |contexts| <= k)
    ensures r == Progressive(WindowRanker(llm, query), contexts, k)
    ensures |contexts| <= k ==> r == Ranked(contexts, Listwise(llm, query, contexts)) && windows == [0]
    ensures |contexts| > k && r.Ranked? ==> windows == Offsets(|contexts|, k)
    ensures |contexts| > k && r.IndexError? ==>
      0 < |windows| <= |Offsets(|contexts|, k)| && windows == Offsets(|contexts|, k)[..|windows|]
    ensures |contexts| > k && r.Ranked? ==> Synced(contexts, r.contexts, r.indices)
  {
    if |contexts| <= k {
      var order;
      ghost var prompts;
      order, prompts := ListwiseReranking(llm, query, contexts);
      return Ranked(contexts, order), [0];
    }
    r, windows := SlidingWindows(llm, query, contexts, k);
    ProgressiveKeepsSync(WindowRanker(llm, query), contexts, k);
  }

  /** The sliding loop of the progressive reranker over a list longer than the
      window: windows from the tail towards the head, half a window apart, then
      the closing pass at offset 0; the first `IndexError` ends it. */
  method SlidingWindows(llm: string -> string, query: string, contexts: seq<string>, k: nat)
    returns (r: Rerank, ghost windows: seq<nat>)
    requires k >= 2 && |contexts| > k
    ensures r == Run(WindowRanker(llm, query), contexts, Range(|contexts|), Offsets(|contexts|, k), k)
    ensures r.Ranked? ==> windows == Offsets(|contexts|, k)
    ensures r.IndexError? ==>
      0 < |windows| <= |Offsets(|contexts|, k)| && windows == Offsets(|contexts|, k)[..|windows|]
  {
    ghost var rank := WindowRanker(llm, query);
    var windowSize := k;
    var windowStep := k / 2;
    var offset: int := |contexts| - windowSize;
    var cs := contexts;
    var indices := Range(|contexts|);
    windows := [];
    ghost var all := WindowsFrom(offset, windowStep);
    assert all == Offsets(|contexts|, k);
    assert all == windows + all;
    ghost var final := Run(rank, cs, indices, all, k);
    while offset > 0
      invariant |cs| == |indices|
      invariant all == windows + WindowsFrom(offset, windowStep)
      invariant final == Run(rank, cs, indices, WindowsFrom(offset, windowStep), k)
      decreases offset
    {
      var step := RerankWindow(llm, query, cs, indices, offset, windowSize);
      var nextOffset := offset - windowStep;
      WindowsAdvance(all, windows, offset, nextOffset, windowStep);
      SlideAdvances(rank, cs, indices, offset, nextOffset, windowStep, k, step, final);
      windows := windows + [offset as nat];
      if step.IndexError? {
        return IndexError(cs), windows;
      }
      cs, indices, offset := step.contexts, step.indices, nextOffset;
    }
    var step := RerankWindow(llm, query, cs, indices, 0, windowSize);
    windows := windows + [0];
    RunClosingPass(rank, cs, indices, offset, windowStep, k);
    if step.IndexError? {
      return IndexError(cs), windows;
    }
    r := Ranked(step.contexts, step.indices);
  }

  /** The offsets from a positive `offset` on: `offset`, then those from
      `later = offset - step` on. */
  lemma WindowsFromNext(offset: int, later: int, step: nat)
    requires step >= 1 && offset > 0 && later == offset - step
    ensures WindowsFrom(offset, step) == [offset as nat] + WindowsFrom(later, step)
  {
  }

  /** One pass of the sliding loop keeps its window bookkeeping: the windows
      visited so far followed by those still to come are the offsets of the whole
      run, and those visited are a prefix of them. */
  lemma WindowsAdvance(all: seq<nat>, windows: seq<nat>, offset: int, later: int, step: nat)
    requires step >= 1 && offset > 0 && later == offset - step
    requires all == windows + WindowsFrom(offset, step)
    ensures var visited := windows + [offset as nat];
      && all == visited + WindowsFrom(later, step)
      && |visited| <= |all| && all[..|visited|] == visited
  {
    WindowsFromNext(offset, later, step);
    var visited := windows + [offset as nat];
    assert all == visited + WindowsFrom(later, step);
  }

  /** One pass of the sliding loop keeps its result bookkeeping: the rest of the
      run from here ends where the whole run ends. */
  lemma SlideAdvances(rank: Ranker, contexts: seq<string>, indices: seq<nat>, offset: int, later: int,
                      step: nat, k: nat, next: Rerank, final: Rerank)
    requires |contexts| == |indices| && step >= 1 && offset > 0 && later == offset - step
    requires next == WindowStep(rank, contexts, indices, offset as nat, k)
    requires final == Run(rank, contexts, indices, WindowsFrom(offset, step), k)
    ensures next.IndexError? ==> final == IndexError(contexts)
    ensures next.Ranked? ==> final == Run(rank, next.contexts, next.indices, WindowsFrom(later, step), k)
  {
    RunFollowsStep(rank, contexts, indices, offset, later, step, k);
  }

  /** A run begins with the window at a positive offset: it ends there with that
      window's `IndexError`, or goes on from that window's result with the offsets
      from `later = offset - step` on. */
  lemma RunFollowsStep(rank: Ranker, contexts: seq<string>, indices: seq<nat>, offset: int, later: int,
                       step: nat, k: nat)
    requires |contexts| == |indices| && step >= 1 && offset > 0 && later == offset - step
    ensures var next := WindowStep(rank, contexts, indices, offset as nat, k);
      && WindowsFrom(offset, step) == [offset as nat] + WindowsFrom(later, step)
      && Run(rank, contexts, indices, WindowsFrom(offset, step), k)
         == (if next.IndexError? then IndexError(contexts)
             else Run(rank, next.contexts, next.indices, WindowsFrom(later, step), k))
  {
    var offsets := WindowsFrom(offset, step);
    WindowsFromNext(offset, later, step);
    assert offsets[0] == offset as nat && offsets[1..] == WindowsFrom(later, step);
  }

  /** Once the offset is not positive, the run is the closing pass at 0 alone. */
  lemma RunClosingPass(rank: Ranker, contexts: seq<string>, indices: seq<nat>, offset: int, step: nat, k: nat)
    requires |contexts| == |indices| && step >= 1 && offset <= 0
    ensures var last := WindowStep(rank, contexts, indices, 0, k);
      && WindowsFrom(offset, step) == [0]
      && Run(rank, contexts, indices, WindowsFrom(offset, step), k) == last
  {
    var offsets := WindowsFrom(offset, step);
    assert offsets[0] == 0 && offsets[1..] == [];
  }

  // ================================================================ the two lists stay in step

  /** Position `j` of the working contexts holds the original context whose
      number sits at position `j` of the working indices. */
  predicate Synced(original: seq<string>, contexts: seq<string>, indices: seq<nat>)
  {
    && |contexts| == |indices|
    && forall j :: 0 <= j < |indices| ==> indices[j] < |original| && contexts[j] == original[indices[j]]
  }

  /** Rewriting both lists with the same order keeps them in step, whatever the order. */
  lemma RewriteKeepsSync(original: seq<string>, contexts: seq<string>, indices: seq<nat>,
                         a: nat, b: nat, order: seq<nat>)
    requires Synced(original, contexts, indices)
    requires a <= b <= |contexts| && WithinWindow(order, b - a)
    ensures Synced(original, Rewrite(contexts, a, b, order), Rewrite(indices, a, b, order))
  {
    var cs := Rewrite(contexts, a, b, order);
    var ix := Rewrite(indices, a, b, order);
    forall j | 0 <= j < |ix| ensures ix[j] < |original| && cs[j] == original[ix[j]] {
      if a <= j < a + |order| {
        assert cs[a + (j - a)] == contexts[a + order[j - a]];
      }
    }
  }

  /** A window step keeps the two lists in step. */
  lemma StepKeepsSync(original: seq<string>, rank: Ranker,
                      contexts: seq<string>, indices: seq<nat>, offset: nat, k: nat)
    requires Synced(original, contexts, indices)
    ensures var r := WindowStep(rank, contexts, indices, offset, k);
      r.Ranked? ==> Synced(original, r.contexts, r.indices)
  {
    var a := SliceStart(|contexts|, offset);
    var b := SliceEnd(|contexts|, offset, offset + k);
    var order := rank(contexts[a..b]);
    if WithinWindow(order, b - a) {
      RewriteKeepsSync(original, contexts, indices, a, b, order);
    }
  }

  lemma {:induction false} RunKeepsSync(original: seq<string>, rank: Ranker,
                                        contexts: seq<string>, indices: seq<nat>, offsets: seq<nat>, k: nat)
    requires Synced(original, contexts, indices)
    ensures var r := Run(rank, contexts, indices, offsets, k);
      r.Ranked? ==> Synced(original, r.contexts, r.indices)
    decreases |offsets|
  {
    if |offsets| > 0 {
      StepKeepsSync(original, rank, contexts, indices, offsets[0], k);
      var s := WindowStep(rank, contexts, indices, offsets[0], k);
      if s.Ranked? {
        RunKeepsSync(original, rank, s.contexts, s.indices, offsets[1..], k);
      }
    }
  }

  /** Whenever the sliding windows finish, every working context is the original
      context its index names, and the two lists have the same length. */
  lemma ProgressiveKeepsSync(rank: Ranker, contexts: seq<string>, k: nat)
    requires k >= 2 && |contexts| > k
    ensures var r := Progressive(rank, contexts, k);
      r.Ranked? ==> Synced(contexts, r.contexts, r.indices)
  {
    assert Synced(contexts, contexts, Range(|contexts|));
    RunKeepsSync(contexts, rank, contexts, Range(|contexts|), Offsets(|contexts|, k), k);
  }

  // ================================================================ permutations

  predicate Distinct(s: seq<nat>)
  {
    forall i, j :: 0 <= i < j < |s| ==> s[i] != s[j]
  }

  lemma DistinctAt(s: seq<nat>, p: nat, q: nat)
    requires Distinct(s) && p < |s| && q < |s| && p != q
    ensures s[p] != s[q]
  {
    if q < p {
      assert s[q] != s[p];
    }
  }

  /** `s` is an ordering of `0 .. n-1`: `n` distinct numbers below `n`. */
  predicate IsPermutation(s: seq<nat>, n: nat)
  {
    |s| == n && (forall i :: 0 <= i < |s| ==> s[i] < n) && Distinct(s)
  }

  /** The ranker answers every window of at most `k` contexts with an ordering of it. */
  ghost predicate Permutes(rank: Ranker, k: nat)
  {
    forall w: seq<string> :: |w| <= k ==> IsPermutation(rank(w), |w|)
  }

  /** The model's reply to the prompt for window `w` parses to an ordering of `w`. */
  ghost predicate RanksWindow(llm: string -> string, query: string, w: seq<string>)
  {
    IsPermutation(ParseReply(llm(Prompt(query, w))), |w|)
  }

  /** The model answers every window of two to `k` passages with an ordering of it. */
  ghost predicate WellBehaved(llm: string -> string, query: string, k: nat)
  {
    forall w: seq<string> :: 2 <= |w| <= k ==> RanksWindow(llm, query, w)
  }

  lemma ListwiseIsPermutation(llm: string -> string, query: string, w: seq<string>, k: nat)
    requires WellBehaved(llm, query, k) && |w| <= k
    ensures IsPermutation(Listwise(llm, query, w), |w|)
  {
    if |w| >= 2 {
      assert RanksWindow(llm, query, w);
    }
  }

  /** A model that answers every window of two to `k` passages with an ordering
      of it makes the window ranker answer every window of at most `k` contexts
      with an ordering of it. */
  lemma WellBehavedPermutes(llm: string -> string, query: string, k: nat)
    requires WellBehaved(llm, query, k)
    ensures Permutes(WindowRanker(llm, query), k)
  {
    forall w: seq<string> | |w| <= k ensures IsPermutation(WindowRanker(llm, query)(w), |w|) {
      ListwiseIsPermutation(llm, query, w, k);
    }
  }

  /** Different positions of a list rewritten by a permutation take their elements
      from different positions. */
  lemma OriginInjective(a: nat, order: seq<nat>, i: nat, j: nat)
    requires IsPermutation(order, |order|) && i < j
    ensures Origin(a, order, i) != Origin(a, order, j)
  {
    if a <= i < a + |order| && a <= j < a + |order| {
      assert order[i - a] != order[j - a];
    }
  }

  /** Rewriting a window by a permutation of it keeps `s` an ordering of `0 .. n-1`. */
  lemma RewriteKeepsPermutation(s: seq<nat>, a: nat, b: nat, order: seq<nat>, n: nat)
    requires IsPermutation(s, n) && a <= b <= n
    requires IsPermutation(order, b - a)
    ensures IsPermutation(Rewrite(s, a, b, order), n)
  {
    var u := Rewrite(s, a, b, order);
    RewriteFrame(s, a, b, order);
    forall j | 0 <= j < n ensures Origin(a, order, j) < n && u[j] < n {
      assert u[j] == s[Origin(a, order, j)];
    }
    forall i, j | 0 <= i < j < n ensures u[i] != u[j] {
      var p := Origin(a, order, i);
      var q := Origin(a, order, j);
      OriginInjective(a, order, i, j);
      assert u[i] == s[p] && u[j] == s[q];
      DistinctAt(s, p, q);
    }
  }

  lemma StepKeepsPermutation(rank: Ranker, contexts: seq<string>, indices: seq<nat>,
                             offset: nat, k: nat, n: nat)
    requires Permutes(rank, k)
    requires |contexts| == n && IsPermutation(indices, n)
    ensures var r := WindowStep(rank, contexts, indices, offset, k);
      r.Ranked? && |r.contexts| == n && IsPermutation(r.indices, n)
  {
    var a := SliceStart(|contexts|, offset);
    var b := SliceEnd(|contexts|, offset, offset + k);
    var order := rank(contexts[a..b]);
    assert b - a <= k;
    assert IsPermutation(order, b - a);
    RewriteFrame(contexts, a, b, order);
    RewriteKeepsPermutation(indices, a, b, order, n);
  }

  lemma {:induction false} RunKeepsPermutation(rank: Ranker, contexts: seq<string>,
                                               indices: seq<nat>, offsets: seq<nat>, k: nat, n: nat)
    requires Permutes(rank, k)
    requires |contexts| == n && IsPermutation(indices, n)
    ensures var r := Run(rank, contexts, indices, offsets, k);
      r.Ranked? && |r.contexts| == n && IsPermutation(r.indices, n)
    decreases |offsets|
  {
    if |offsets| > 0 {
      StepKeepsPermutation(rank, contexts, indices, offsets[0], k, n);
      var s := WindowStep(rank, contexts, indices, offsets[0], k);
      RunKeepsPermutation(rank, s.contexts, s.indices, offsets[1..], k, n);
    }
  }

  lemma IdentityRunIsPermutation(rank: Ranker, contexts: seq<string>,
                                 offsets: seq<nat>, k: nat)
    requires Permutes(rank, k)
    ensures var r := Run(rank, contexts, Range(|contexts|), offsets, k);
      r.Ranked? && |r.contexts| == |contexts| && IsPermutation(r.indices, |contexts|)
  {
    assert IsPermutation(Range(|contexts|), |contexts|);
    RunKeepsPermutation(rank, contexts, Range(|contexts|), offsets, k, |contexts|);
  }

  /** When the model answers every window with an ordering of it, progressive
      reranking raises nothing, keeps both lists at length `n`, and returns an
      ordering of `0 .. n-1`. */
  lemma ProgressiveIsPermutation(rank: Ranker, contexts: seq<string>, k: nat)
    requires k >= 2 || (k >= 1 && |contexts| <= k)
    requires Permutes(rank, k)
    ensures var r := Progressive(rank, contexts, k);
      r.Ranked? && |r.contexts| == |contexts| && IsPermutation(r.indices, |contexts|)
  {
    if |contexts| > k {
      IdentityRunIsPermutation(rank, contexts, Offsets(|contexts|, k), k);
    }
  }

  /** When the model answers every window of two or more passages with an ordering
      of it, progressive reranking with the window ranker raises nothing and
      returns an ordering of `0 .. n-1`. */
  lemma ModelProgressiveIsPermutation(llm: string -> string, query: string, contexts: seq<string>, k: nat)
    requires k >= 2 || (k >= 1 && |contexts| <= k)
    requires WellBehaved(llm, query, k)
    ensures var r := Progressive(WindowRanker(llm, query), contexts, k);
      r.Ranked? && |r.contexts| == |contexts| && IsPermutation(r.indices, |contexts|)
  {
    WellBehavedPermutes(llm, query, k);
    ProgressiveIsPermutation(WindowRanker(llm, query), contexts, k);
  }

  // ================================================================ the windows

  /** The windows `offset` and `k` wide cover position `j`. */
  predicate Covered(offsets: seq<nat>, k: nat, j: nat)
  {
    exists t :: 0 <= t < |offsets| && offsets[t] <= j < offsets[t] + k
  }

  lemma {:induction false} WindowsFromCover(offset: int, step: nat, k: nat)
    requires 1 <= step <= k
    ensures forall j: nat :: j < offset + k ==> Covered(WindowsFrom(offset, step), k, j)
    decreases offset
  {
    var r := WindowsFrom(offset, step);
    if offset <= 0 {
      forall j: nat | j < offset + k ensures Covered(r, k, j) {
        assert r[0] <= j < r[0] + k;
      }
    } else {
      var rest := WindowsFrom(offset - step, step);
      WindowsFromCover(offset - step, step, k);
      forall j: nat | j < offset + k ensures Covered(r, k, j) {
        if j >= offset {
          assert r[0] <= j < r[0] + k;
        } else {
          assert Covered(rest, k, j);
          var t :| 0 <= t < |rest| && rest[t] <= j < rest[t] + k;
          assert r[t + 1] == rest[t];
        }
      }
    }
  }

  /** With a window of two or more, every position of the list lies in some window. */
  lemma OffsetsCover(n: nat, k: nat)
    requires k >= 2
    ensures forall j: nat :: j < n ==> Covered(Offsets(n, k), k, j)
  {
    WindowsFromCover(n - k, k / 2, k);
  }

  /** The offsets start at `offset`, fall by `step` while they stay positive, end
      with the closing pass at 0, and never exceed the start. */
  lemma {:induction false} WindowsFromShape(offset: int, step: nat)
    requires step >= 1
    ensures var r := WindowsFrom(offset, step);
      && r[0] == (if offset > 0 then offset else 0)
      && (forall t :: 0 <= t < |r| - 1 ==> r[t] > 0 && r[t + 1] == if r[t] - step > 0 then r[t] - step else 0)
      && (forall t :: 0 <= t < |r| ==> r[t] <= if offset > 0 then offset else 0)
    decreases offset
  {
    if offset > 0 {
      WindowsFromShape(offset - step, step);
      var r := WindowsFrom(offset, step);
      assert r[1..] == WindowsFrom(offset - step, step);
    }
  }

  /** Every window of progressive reranking lies inside the list: it starts at
      `n - k`, slides `k / 2` at a time toward the head, and ends with `[0, k)`. */
  lemma OffsetsShape(n: nat, k: nat)
    requires k >= 2 && n > k
    ensures var r := Offsets(n, k);
      && r[0] == n - k && r[|r| - 1] == 0
      && (forall t :: 0 <= t < |r| ==> r[t] + k <= n)
      && (forall t :: 0 <= t < |r| - 1 ==> r[t] > 0 && r[t + 1] == if r[t] - k / 2 > 0 then r[t] - k / 2 else 0)
  {
    WindowsFromShape(n - k, k / 2);
  }

  /** Ten contexts, window four: windows [6, 10), [4, 8), [2, 6), then [0, 4). */
  lemma TenContextsWindowFour()
    ensures Offsets(10, 4) == [6, 4, 2, 0]
  {
    assert WindowsFrom(0, 2) == [0];
    assert WindowsFrom(2, 2) == [2, 0];
    assert WindowsFrom(4, 2) == [4, 2, 0];
    assert WindowsFrom(6, 2) == [6, 4, 2, 0];
  }

  /** The offset after `t` passes of the loop body as written (`offset -= k // 2`). */
  function OffsetAfter(n: nat, k: nat, t: nat): int
  {
    if t == 0 then n - k else OffsetAfter(n, k, t - 1) - k / 2
  }

  /** With a window of one context and more than one context, the step is 0: the
      offset stays at `n - 1 > 0` after any number of passes, so the loop never ends. */
  lemma {:induction false} UnitWindowNeverExits(n: nat, t: nat)
    requires n > 1
    ensures OffsetAfter(n, 1, t) == n - 1 > 0
  {
    if t > 0 {
      UnitWindowNeverExits(n, t - 1);
    }
  }

  /** Every window size the fixed factory accepts makes the loop finish: after
      `t` passes the offset is `n - k - t * (k / 2)`, not positive once `t = n`. */
  lemma {:induction false} FixedWindowLoopExits(n: nat, k: nat, t: nat)
    requires ContextRankingFactoryFixed(k).Configured?
    ensures OffsetAfter(n, k, t) == n - k - t * (k / 2)
    ensures t >= n ==> OffsetAfter(n, k, t) <= 0
  {
    OffsetAfterClosed(n, k, t);
    assert t * (k / 2) >= t;
  }

  /** After `t` passes the offset is `n - k - t * (k / 2)`, whatever the window size. */
  lemma {:induction false} OffsetAfterClosed(n: nat, k: nat, t: nat)
    ensures OffsetAfter(n, k, t) == n - k - t * (k / 2)
  {
    if t > 0 {
      OffsetAfterClosed(n, k, t - 1);
    }
  }

  /** Before the closing pass, window `t` of `WindowsFrom` is `offset - t * step`,
      and it is positive. */
  lemma {:induction false} WindowsFromAt(offset: int, step: nat, t: nat)
    requires step >= 1 && t + 1 < |WindowsFrom(offset, step)|
    ensures WindowsFrom(offset, step)[t] == offset - t * step > 0
    decreases t
  {
    if t > 0 {
      WindowsFromAt(offset - step, step, t - 1);
    }
  }

  /** One step past the last window before the closing pass, the offset is no
      longer positive. */
  lemma {:induction false} WindowsFromEnds(offset: int, step: nat)
    requires step >= 1
    ensures offset - (|WindowsFrom(offset, step)| - 1) * step <= 0
    decreases offset
  {
    if offset > 0 {
      WindowsFromEnds(offset - step, step);
    }
  }

  /** `Offsets` is what the loop as written visits: window `t` before the closing
      pass is the offset after `t` passes, which is still positive; after the last
      of them the offset is no longer positive, the loop exits and the closing pass
      is at 0. */
  lemma OffsetsFollowLoop(n: nat, k: nat, t: nat)
    requires k >= 2 && t < |Offsets(n, k)|
    ensures t + 1 < |Offsets(n, k)| ==> Offsets(n, k)[t] == OffsetAfter(n, k, t) > 0
    ensures t + 1 == |Offsets(n, k)| ==> OffsetAfter(n, k, t) <= 0 && Offsets(n, k)[t] == 0
  {
    OffsetAfterClosed(n, k, t);
    if t + 1 < |Offsets(n, k)| {
      WindowsFromAt(n - k, k / 2, t);
    } else {
      WindowsFromEnds(n - k, k / 2);
    }
  }

  // ================================================================ 1-based replies

  /** A model that answers every prompt with the same ranking, in the format the
      prompt asks for. */
  function FixedReply(ranking: seq<nat>): string -> string
  {
    prompt => ReplyFor(ranking)
  }

  /** Such a model's ranking is what the window ranker reads for any window of two
      or more passages. */
  lemma FixedReplyRanks(ranking: seq<nat>, query: string, w: seq<string>)
    requires |w| >= 2
    ensures Listwise(FixedReply(ranking), query, w) == ranking
  {
    ParseReplyFor(ranking);
  }

  /** A model that follows the prompt's own 1-based numbering: for two passages it
      puts the second first and answers `[2, 1]`. */
  const OneBasedModel: string -> string := FixedReply([2, 1])

  /** A reranking whose first window, the last `k` contexts, gets a number
      outside the window ends right there with an `IndexError`. */
  lemma FirstWindowRaises(rank: Ranker, contexts: seq<string>, k: nat)
    requires k >= 2 && |contexts| > k
    requires !WithinWindow(rank(contexts[|contexts| - k..]), k)
    ensures Progressive(rank, contexts, k) == IndexError(contexts)
  {
    var n := |contexts|;
    assert Slice(contexts, n - k, n - k + k) == contexts[n - k..];
    RunFollowsStep(rank, contexts, Range(n), n - k, n - k - k / 2, k / 2, k);
  }

  /** The 1-based answer for two passages is read as `[2, 1]`, not an ordering
      of `0 .. 1`. */
  lemma OneBasedPair(query: string, w: seq<string>)
    requires |w| == 2
    ensures Listwise(OneBasedModel, query, w) == [2, 1]
    ensures !IsPermutation(Listwise(OneBasedModel, query, w), 2)
  {
    FixedReplyRanks([2, 1], query, w);
    assert Listwise(OneBasedModel, query, w)[0] == 2;
  }

  /** A model that answers the first window, the last `k` contexts, with the
      prompt's own 1-based numbers `1 .. k` in any order makes reranking stop
      with an `IndexError` there: the number `k` is outside the window. */
  lemma OneBasedRankingRaises(llm: string -> string, query: string, contexts: seq<string>, k: nat)
    requires k >= 2 && |contexts| > k
    requires multiset(ParseReply(llm(Prompt(query, contexts[|contexts| - k..]))))
             == multiset(seq(k, (i: nat) => i + 1))
    ensures Progressive(WindowRanker(llm, query), contexts, k) == IndexError(contexts)
  {
    var w := contexts[|contexts| - k..];
    var order := WindowRanker(llm, query)(w);
    assert order == ParseReply(llm(Prompt(query, w)));
    var numbers := seq(k, (i: nat) => i + 1);
    assert numbers[k - 1] == k;
    assert k in multiset(order);
    var t :| 0 <= t < |order| && order[t] == k;
    FirstWindowRaises(WindowRanker(llm, query), contexts, k);
  }

  /** Reranking more than two contexts with a window of two under the 1-based
      model stops with an `IndexError` on its first window. */
  lemma OneBasedReplyRaises(query: string, contexts: seq<string>)
    requires |contexts| > 2
    ensures Progressive(WindowRanker(OneBasedModel, query), contexts, 2) == IndexError(contexts)
  {
    var w := contexts[|contexts| - 2..];
    OneBasedPair(query, w);
    assert WindowRanker(OneBasedModel, query)(w) == [2, 1];
    FirstWindowRaises(WindowRanker(OneBasedModel, query), contexts, 2);
  }
}
