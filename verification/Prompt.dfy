/** Token budgets of the prompt: whole chunks packed greedily, and the most recent messages. */
module Prompt {

  // ---------------------------------------------------------------- context

  /** A retrieved chunk with the tokens of its text and of its label line. */
  datatype Chunk = Chunk(id: int, tokenCount: nat, labelTokens: nat)

  function Cost(c: Chunk): nat { c.tokenCount + c.labelTokens }

  /** A choice of chunks: for each one whether it is taken. */
  type Choice = seq<bool>

  function Total(chunks: seq<Chunk>, choice: Choice): nat
    requires |choice| == |chunks|
  {
    if chunks == [] then 0 else (if choice[0] then Cost(chunks[0]) else 0) + Total(chunks[1..], choice[1..])
  }

  function Taken(chunks: seq<Chunk>, choice: Choice): seq<Chunk>
    requires |choice| == |chunks|
  {
    if chunks == [] then [] else (if choice[0] then [chunks[0]] else []) + Taken(chunks[1..], choice[1..])
  }

  /** Taking each chunk, best first, whenever it still fits. */
  function Greedy(chunks: seq<Chunk>, budget: int): (r: Choice)
    ensures |r| == |chunks|
  {
    if chunks == [] then []
    else if Cost(chunks[0]) <= budget then [true] + Greedy(chunks[1..], budget - Cost(chunks[0]))
    else [false] + Greedy(chunks[1..], budget)
  }

  /** The included chunks are chunks at increasing positions, together within the budget, and no chunk at
      another position would fit in what is left. */
  method BuildContextBlock(chunks: seq<Chunk>, budget: int) returns (included: seq<Chunk>)
    ensures included == Taken(chunks, Greedy(chunks, budget))
    ensures budget >= 0 ==> CostOf(included) <= budget
    ensures exists at: seq<nat> :: Picks(chunks, included, at) && NoOtherFits(chunks, included, at, budget)
  {
    hide Picks, NoOtherFits, CostOf, Taken, Greedy;
    included := [];
    var used := 0;
    assert chunks[0..] == chunks;
    for i := 0 to |chunks|
      invariant included + Taken(chunks[i..], Greedy(chunks[i..], budget - used))
             == Taken(chunks, Greedy(chunks, budget))
    {
      GreedyNext(chunks, i, budget - used, included);
      var total := Cost(chunks[i]);
      if used + total > budget {
        continue;
      }
      included := included + [chunks[i]];
      used := used + total;
    }
    NoneLeft(chunks, budget - used);
    IncludedPicks(chunks, budget, included);
  }

  /** The next chunk is taken exactly when it fits in what is left. */
  lemma GreedyNext(chunks: seq<Chunk>, i: nat, left: int, included: seq<Chunk>)
    requires i < |chunks|
    ensures var fits := Cost(chunks[i]) <= left;
            var rest := Greedy(chunks[i + 1..], if fits then left - Cost(chunks[i]) else left);
            included + Taken(chunks[i..], Greedy(chunks[i..], left))
              == (if fits then included + [chunks[i]] else included) + Taken(chunks[i + 1..], rest)
  {
    var now, choice := chunks[i..], Greedy(chunks[i..], left);
    var rest := Greedy(chunks[i + 1..], if choice[0] then left - Cost(chunks[i]) else left);
    assert now[1..] == chunks[i + 1..] && choice[1..] == rest;
    assert Taken(now, choice) == (if choice[0] then [now[0]] else []) + Taken(now[1..], choice[1..]);
    hide Taken;
  }

  lemma NoneLeft(chunks: seq<Chunk>, left: int)
    ensures Taken(chunks[|chunks|..], Greedy(chunks[|chunks|..], left)) == []
  {
  }

  /** The counted cost of a list of chunks. */
  function CostOf(chunks: seq<Chunk>): nat {
    if chunks == [] then 0 else Cost(chunks[0]) + CostOf(chunks[1..])
  }

  /** Costs add up, text and label of every chunk. */
  lemma {:induction false} CostOfAppend(a: seq<Chunk>, b: seq<Chunk>)
    ensures CostOf(a + b) == CostOf(a) + CostOf(b)
    ensures |a| == 1 ==> CostOf(a) == a[0].tokenCount + a[0].labelTokens
  {
    if a == [] {
      assert a + b == b;
    } else {
      assert (a + b)[1..] == a[1..] + b;
      CostOfAppend(a[1..], b);
    }
  }

  /** These are the chunks at the given, strictly increasing positions. */
  predicate Picks(chunks: seq<Chunk>, included: seq<Chunk>, at: seq<nat>) {
    && |at| == |included|
    && (forall j, k :: 0 <= j < k < |at| ==> at[j] < at[k])
    && (forall j :: 0 <= j < |at| ==> at[j] < |chunks| && included[j] == chunks[at[j]])
  }

  /** No chunk at another position fits in what these leave of the budget. */
  predicate NoOtherFits(chunks: seq<Chunk>, included: seq<Chunk>, at: seq<nat>, budget: int) {
    forall i: nat :: i < |chunks| && i !in at ==>
      CostOf(included) + chunks[i].tokenCount + chunks[i].labelTokens > budget
  }

  /** The chunks taken are those at the positions the choice marks, in order, and cost what it costs. */
  lemma {:induction false} TakenAt(chunks: seq<Chunk>, choice: Choice) returns (at: seq<nat>)
    requires |choice| == |chunks|
    ensures Picks(chunks, Taken(chunks, choice), at)
    ensures forall i: nat :: i < |chunks| ==> (i in at <==> choice[i])
    ensures CostOf(Taken(chunks, choice)) == Total(chunks, choice)
  {
    if chunks == [] {
      at := [];
    } else {
      var rest := TakenAt(chunks[1..], choice[1..]);
      TakenFirst(chunks, choice, rest);
      at := (if choice[0] then [0] else []) + Shifted(rest);
    }
  }

  function Shifted(at: seq<nat>): (r: seq<nat>)
    ensures |r| == |at| && forall j :: 0 <= j < |r| ==> r[j] == at[j] + 1
    ensures forall i: nat :: i + 1 in r <==> i in at
    ensures 0 !in r
  {
    var r := seq(|at|, j requires 0 <= j < |at| => at[j] + 1);
    assert forall i: nat :: i in at ==> exists j :: 0 <= j < |at| && at[j] == i && r[j] == i + 1;
    r
  }

  lemma TakenFirst(chunks: seq<Chunk>, choice: Choice, rest: seq<nat>)
    requires |choice| == |chunks| && chunks != []
    requires Picks(chunks[1..], Taken(chunks[1..], choice[1..]), rest)
    requires forall i: nat :: i < |chunks| - 1 ==> (i in rest <==> choice[1..][i])
    requires CostOf(Taken(chunks[1..], choice[1..])) == Total(chunks[1..], choice[1..])
    ensures var at := (if choice[0] then [0] else []) + Shifted(rest);
            && Picks(chunks, Taken(chunks, choice), at)
            && (forall i: nat :: i < |chunks| ==> (i in at <==> choice[i]))
            && CostOf(Taken(chunks, choice)) == Total(chunks, choice)
  {
    hide Shifted, Picks, CostOf;
    var first, more := if choice[0] then [chunks[0]] else [], Taken(chunks[1..], choice[1..]);
    CostOfAppend(first, more);
    MarkedFirst(choice, rest);
    PicksMore(chunks[0], chunks[1..], more, rest);
    assert chunks == [chunks[0]] + chunks[1..];
    assert [] + more == more && [] + Shifted(rest) == Shifted(rest);
  }

  lemma MarkedFirst(choice: Choice, rest: seq<nat>)
    requires choice != [] && forall i: nat :: i < |choice| - 1 ==> (i in rest <==> choice[1..][i])
    ensures var at := (if choice[0] then [0] else []) + Shifted(rest);
            forall i: nat :: i < |choice| ==> (i in at <==> choice[i])
  {
    hide Shifted;
    var at := (if choice[0] then [0] else []) + Shifted(rest);
    forall i: nat | i < |choice| ensures i in at <==> choice[i] {
      if i > 0 {
        assert i - 1 + 1 in Shifted(rest) <==> i - 1 in rest;
      }
    }
  }

  /** Picking from a list one longer, without or with its first chunk. */
  lemma PicksMore(c: Chunk, chunks: seq<Chunk>, included: seq<Chunk>, at: seq<nat>)
    requires Picks(chunks, included, at)
    ensures Picks([c] + chunks, included, Shifted(at))
    ensures Picks([c] + chunks, [c] + included, [0] + Shifted(at))
  {
    hide Shifted;
    assert forall j :: 0 <= j < |at| ==> ([c] + chunks)[Shifted(at)[j]] == chunks[at[j]];
  }

  lemma IncludedPicks(chunks: seq<Chunk>, budget: int, included: seq<Chunk>)
    requires included == Taken(chunks, Greedy(chunks, budget))
    ensures budget >= 0 ==> CostOf(included) <= budget
    ensures exists at: seq<nat> :: Picks(chunks, included, at) && NoOtherFits(chunks, included, at, budget)
  {
    hide Picks, Greedy, Taken, CostOf;
    var choice := Greedy(chunks, budget);
    var at := TakenAt(chunks, choice);
    if budget >= 0 {
      GreedyFits(chunks, budget);
    }
    forall i: nat | i < |chunks| && i !in at
      ensures Total(chunks, choice) + Cost(chunks[i]) > budget
    {
      NothingSkippedFits(chunks, budget, i);
    }
    assert Picks(chunks, included, at) && NoOtherFits(chunks, included, at, budget);
  }

  /** a does not beat b: where they first differ, b takes the chunk. */
  predicate NotBetter(a: Choice, b: Choice)
    requires |a| == |b|
  {
    a == [] || (b[0] && !a[0]) || (a[0] == b[0] && NotBetter(a[1..], b[1..]))
  }

  lemma {:induction false} GreedyFits(chunks: seq<Chunk>, budget: nat)
    ensures Total(chunks, Greedy(chunks, budget)) <= budget
  {
    if chunks != [] {
      GreedyFits(chunks[1..], if Cost(chunks[0]) <= budget then budget - Cost(chunks[0]) else budget);
    }
  }

  /** No choice within the budget ranks higher: the packing is the lexicographically greatest one. */
  lemma {:induction false} GreedyIsGreatest(chunks: seq<Chunk>, budget: int, choice: Choice)
    requires |choice| == |chunks| && Total(chunks, choice) <= budget
    ensures NotBetter(choice, Greedy(chunks, budget))
  {
    if chunks != [] && choice[0] == (Cost(chunks[0]) <= budget) {
      GreedyIsGreatest(chunks[1..], if choice[0] then budget - Cost(chunks[0]) else budget, choice[1..]);
    }
  }

  lemma {:induction false} TotalWith(chunks: seq<Chunk>, choice: Choice, i: nat)
    requires |choice| == |chunks| && i < |chunks| && !choice[i]
    ensures Total(chunks, choice[i := true]) == Total(chunks, choice) + Cost(chunks[i])
    ensures !NotBetter(choice[i := true], choice)
  {
    if i == 0 {
      assert choice[0 := true][1..] == choice[1..];
    } else {
      assert choice[i := true][1..] == choice[1..][i - 1 := true];
      TotalWith(chunks[1..], choice[1..], i - 1);
    }
  }

  /** No skipped chunk could be added to what was chosen. */
  lemma NothingSkippedFits(chunks: seq<Chunk>, budget: int, i: nat)
    requires i < |chunks| && !Greedy(chunks, budget)[i]
    ensures Total(chunks, Greedy(chunks, budget)) + Cost(chunks[i]) > budget
  {
    var choice := Greedy(chunks, budget);
    TotalWith(chunks, choice, i);
    if Total(chunks, choice[i := true]) <= budget {
      GreedyIsGreatest(chunks, budget, choice[i := true]);
    }
  }

  // ---------------------------------------------------------------- history

  /** A stored message: its tokens and the count saved with it. */
  datatype Message = Message(role: int, tokens: seq<int>, tokenCount: nat)

  datatype Entry = Entry(role: int, tokens: seq<int>)

  function Sum(messages: seq<Message>): nat {
    if messages == [] then 0 else messages[0].tokenCount + Sum(messages[1..])
  }

  function Entries(messages: seq<Message>): (r: seq<Entry>)
    ensures |r| == |messages|
    ensures forall i :: 0 <= i < |r| ==> r[i] == Entry(messages[i].role, messages[i].tokens)
  {
    seq(|messages|, i requires 0 <= i < |messages| => Entry(messages[i].role, messages[i].tokens))
  }

  /** tokens[-n:] */
  function Last(tokens: seq<int>, n: nat): (r: seq<int>)
    requires n > 0
    ensures |r| == (if n < |tokens| then n else |tokens|) && tokens == tokens[..|tokens| - |r|] + r
  {
    if n >= |tokens| then tokens else tokens[|tokens| - n..]
  }

  /** k starts the longest run of most recent messages within the budget. */
  predicate LongestSuffix(messages: seq<Message>, budget: int, k: nat) {
    && k <= |messages|
    && Sum(messages[k..]) <= budget
    && forall j :: 0 <= j < k ==> Sum(messages[j..]) > budget
  }

  predicate NewestTooBig(messages: seq<Message>, budget: int) {
    messages != [] && messages[|messages| - 1].tokenCount > budget
  }

  lemma {:induction false} LongerCostsMore(messages: seq<Message>, j: nat, k: nat)
    requires j <= k <= |messages|
    ensures Sum(messages[j..]) >= Sum(messages[k..])
    decreases k - j
  {
    if j < k {
      assert messages[j..][1..] == messages[j + 1..];
      LongerCostsMore(messages, j + 1, k);
    }
  }

  /** The history is the longest suffix within the budget, in order; when the newest message alone is too
      big, it is the end of that message, cut to the budget. */
  method BuildHistoryBlock(messages: seq<Message>, budget: int) returns (selected: seq<Entry>)
    ensures messages != [] && messages[|messages| - 1].tokenCount > budget ==>
            selected == if budget <= 0 then []
                        else [Entry(messages[|messages| - 1].role, Last(messages[|messages| - 1].tokens, budget))]
    ensures messages != [] && messages[|messages| - 1].tokenCount <= budget ==>
            exists k: nat ::
              && LongestSuffix(messages, budget, k)
              && k < |messages| && selected == Entries(messages[k..]) && Sum(messages[k..]) <= budget
              && forall j :: 0 <= j < k ==> Sum(messages[j..]) > budget
    ensures messages == [] ==> selected == []
  {
    selected := [];
    var accumulated := 0;
    var i := |messages|;
    while i > 0
      invariant 0 <= i <= |messages|
      invariant accumulated == Sum(messages[i..]) && selected == Entries(messages[i..])
      invariant i < |messages| ==> accumulated <= budget && !NewestTooBig(messages, budget)
    {
      var message := messages[i - 1];
      assert messages[i - 1..] == [message] + messages[i..];
      if accumulated + message.tokenCount <= budget {
        selected := [Entry(message.role, message.tokens)] + selected;
        accumulated := accumulated + message.tokenCount;
        i := i - 1;
      } else if selected == [] {
        if budget - accumulated > 0 {
          selected := [Entry(message.role, Last(message.tokens, budget - accumulated))];
        }
        return;
      } else {
        forall j | 0 <= j < i ensures Sum(messages[j..]) > budget {
          LongerCostsMore(messages, j, i - 1);
        }
        assert LongestSuffix(messages, budget, i);
        return;
      }
    }
    if messages != [] {
      assert LongestSuffix(messages, budget, 0);
    }
  }

  /** The counts of the messages add up. */
  lemma {:induction false} SumAppend(a: seq<Message>, b: seq<Message>)
    ensures Sum(a + b) == Sum(a) + Sum(b)
    ensures |a| == 1 ==> Sum(a) == a[0].tokenCount
  {
    if a == [] {
      assert a + b == b;
    } else {
      assert (a + b)[1..] == a[1..] + b;
      SumAppend(a[1..], b);
    }
  }

  /** There is only one such suffix. */
  lemma LongestSuffixUnique(messages: seq<Message>, budget: int, j: nat, k: nat)
    requires LongestSuffix(messages, budget, j) && LongestSuffix(messages, budget, k)
    ensures j == k
  {
  }
}
