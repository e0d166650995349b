/** The model's token stream and the usage accounting at its end. */
module Llm {
  import opened Sequences
  import opened Text
  import opened Wrappers
  import opened SseServer
  import Redis
  import Quota

  /** What the API stream yields: a text delta, the usage report, or neither. */
  datatype Item = Delta(text: PyStr) | Usage(completionTokens: nat) | Nothing

  /** What the consumer does: it stays, closes the generator at its n-th yield, or has the wait for an item
      cancelled (a timeout, or the client going away). */
  datatype Leave = Stays | ClosesAtYield(n: nat) | InterruptsWait(item: nat)

  /** How the generator's body, or the whole generator, ends. */
  datatype End = Returns | Raises(exc: Exc) | Exits | Cancels

  /** How the counter call goes: it works, its Redis calls fail, or it is cancelled; in the last two cases the
      store may be left in any state. */
  datatype Recording = Works | Breaks(left: Redis.Db) | Stalls(left: Redis.Db)

  /** What the counter call raises. Only the last is not an Exception and passes the handlers. */
  datatype Problem = QuotaExceeded | Failure | Cancellation

  function Deltas(items: seq<Item>): seq<PyStr> {
    if items == [] then []
    else Deltas(items[..|items| - 1]) + if items[|items| - 1].Delta? then [items[|items| - 1].text] else []
  }

  function LastUsage(items: seq<Item>): nat {
    if items == [] then 0
    else if items[|items| - 1].Usage? then items[|items| - 1].completionTokens
    else LastUsage(items[..|items| - 1])
  }

  /** How many items are read up to the n-th delta, all of them when there are fewer. */
  function ReadUntil(items: seq<Item>, n: nat): (k: nat)
    ensures k <= |items|
  {
    if items == [] then 0
    else if 0 < n <= |Deltas(items[..|items| - 1])| then ReadUntil(items[..|items| - 1], n)
    else |items|
  }

  function ItemsRead(items: seq<Item>, leave: Leave): (k: nat)
    ensures k <= |items|
  {
    match leave
    case Stays => |items|
    case ClosesAtYield(n) => ReadUntil(items, n)
    case InterruptsWait(k) => if k <= |items| then k else |items|
  }

  /** What the caller was given before it left or the stream ended. */
  function Given(items: seq<Item>, leave: Leave): seq<PyStr> { Deltas(items[..ItemsRead(items, leave)]) }

  function UsageSeen(items: seq<Item>, leave: Leave): nat { LastUsage(items[..ItemsRead(items, leave)]) }

  function BodyEnd(items: seq<Item>, failure: Option<Exc>, leave: Leave): End {
    if leave.InterruptsWait? && leave.item <= |items| then Cancels
    else if leave.ClosesAtYield? && 0 < leave.n <= |Deltas(items)| then Exits
    else if failure.Some? then Raises(failure.value)
    else Returns
  }

  /** How the generator ends for its caller: as its body did, whether the user is over quota and whether the
      counter call failed or not; only a cancelled counter call changes it. */
  function Outward(items: seq<Item>, failure: Option<Exc>, leave: Leave, recording: Recording): End {
    if UsageSeen(items, leave) > 0 && recording.Stalls? then Cancels else BodyEnd(items, failure, leave)
  }

  lemma NextItem(items: seq<Item>, i: nat)
    requires i < |items|
    ensures Deltas(items[..i + 1]) == Deltas(items[..i]) + if items[i].Delta? then [items[i].text] else []
    ensures LastUsage(items[..i + 1])
         == if items[i].Usage? then items[i].completionTokens else LastUsage(items[..i])
  {
    assert items[..i + 1][..i] == items[..i];
  }

  lemma {:induction false} DeltasGrow(items: seq<Item>, k: nat)
    requires k <= |items|
    ensures |Deltas(items[..k])| <= |Deltas(items)|
  {
    if k < |items| {
      DeltasGrow(items[..|items| - 1], k);
      assert items[..|items| - 1][..k] == items[..k];
    } else {
      assert items[..k] == items;
    }
  }

  lemma {:induction false} ReadUntilIs(items: seq<Item>, n: nat, k: nat)
    requires 0 < k <= |items|
    requires |Deltas(items[..k - 1])| < n <= |Deltas(items[..k])|
    ensures ReadUntil(items, n) == k && n <= |Deltas(items)|
  {
    var m := |items| - 1;
    DeltasGrow(items, k);
    if k <= m {
      assert items[..m][..k] == items[..k] && items[..m][..k - 1] == items[..k - 1];
      DeltasGrow(items[..m], k);
      ReadUntilIs(items[..m], n, k);
    } else {
      assert items[..k] == items;
    }
  }

  lemma {:induction false} ReadUntilAll(items: seq<Item>, n: nat)
    requires n == 0 || |Deltas(items)| < n
    ensures ReadUntil(items, n) == |items|
  {
    if items != [] {
      DeltasGrow(items, |items| - 1);
    }
  }

  /** check_and_increment_token_usage, with the ways in which it may go wrong. */
  method RecordUsage(redis: Redis.Client, user: Redis.User, tokens: nat, now: int, recording: Recording)
    returns (raised: Option<Problem>)
    modifies redis
    ensures recording.Works? ==>
              && redis.db == Quota.Charged(old(redis.db), user, tokens, now)
              && (raised == None || raised == Some(QuotaExceeded))
              && (raised.Some? <==>
                    Redis.ValueOrZero(old(redis.db), Redis.TokenQuota(user, Quota.DayOf(now)), now) + tokens
                      > Quota.MAX_DAILY_TOKENS)
    ensures !recording.Works? ==>
              redis.db == recording.left && raised == Some(if recording.Breaks? then Failure else Cancellation)
  {
    if recording.Works? {
      var exceeded := Quota.CheckAndIncrementTokenUsage(redis, user, tokens, now);
      raised := if exceeded then Some(QuotaExceeded) else None;
    } else {
      redis.db := recording.left;
      raised := Some(if recording.Breaks? then Failure else Cancellation);
    }
  }

  /** The try block: the deltas, up to where the caller leaves, and the last usage report. */
  method YieldTokens(items: seq<Item>, failure: Option<Exc>, leave: Leave)
    returns (texts: seq<PyStr>, end: End, outputTokens: nat)
    ensures texts == Given(items, leave) && outputTokens == UsageSeen(items, leave)
    ensures end == BodyEnd(items, failure, leave)
  {
    texts, outputTokens := [], 0;
    assert items[..0] == [];
    assert Deltas(items[..0]) == [] && LastUsage(items[..0]) == 0;
    hide Deltas, LastUsage;
    var i := 0;
    end := if failure.Some? then Raises(failure.value) else Returns;
    while true
      invariant i <= |items|
      invariant texts == Deltas(items[..i]) && outputTokens == LastUsage(items[..i])
      invariant end == if failure.Some? then Raises(failure.value) else Returns
      invariant leave.InterruptsWait? ==> i <= leave.item
      invariant leave.ClosesAtYield? ==> leave.n == 0 || |texts| < leave.n
      decreases |items| - i
    {
      if leave == InterruptsWait(i) {
        end := Cancels;
        break;
      }
      if i == |items| {
        break;
      }
      NextItem(items, i);
      i := i + 1;
      match items[i - 1] {
        case Delta(text) =>
          texts := texts + [text];
          if leave == ClosesAtYield(|texts|) {
            end := Exits;
            ReadUntilIs(items, |texts|, i);
            break;
          }
        case Usage(n) => outputTokens := n;
        case Nothing =>
      }
    }
    assert items[..|items|] == items;
    if leave.ClosesAtYield? && end != Exits {
      ReadUntilAll(items, leave.n);
    }
    assert i == ItemsRead(items, leave);
  }

  /** The caller gets the deltas and the end of the body, also when the counter call raises; the last usage
      report read is charged, when the counter works, however the body ended. */
  method StreamLlmResponse(items: seq<Item>, failure: Option<Exc>, leave: Leave,
                           redis: Redis.Client, user: Redis.User, now: int, recording: Recording)
    returns (texts: seq<PyStr>, end: End)
    modifies redis
    ensures texts == Given(items, leave)
    ensures end == Outward(items, failure, leave, recording)
    ensures UsageSeen(items, leave) == 0 ==> redis.db == old(redis.db)
    ensures UsageSeen(items, leave) > 0 && recording.Works? ==>
              redis.db == Quota.Charged(old(redis.db), user, UsageSeen(items, leave), now)
  {
    var outputTokens;
    texts, end, outputTokens := YieldTokens(items, failure, leave);
    if outputTokens > 0 {
      var raised := RecordUsage(redis, user, outputTokens, now, recording);
      match raised {
        case None =>
        case Some(QuotaExceeded) => // logged
        case Some(Failure) =>       // logged
        case Some(Cancellation) => end := Cancels;
      }
    }
  }

  /** What the answer stream's server sees after the deltas; a cancelled wait is its own timeout or its client. */
  function LastPull(end: End, timedOut: bool): Pull {
    match end
    case Returns => Stop
    case Raises(e) => Raise(e)
    case Exits => Cancelled
    case Cancels => if timedOut then Raise(ChunkTimeout) else Cancelled
  }

  function Pulls(texts: seq<PyStr>, last: Pull): seq<Pull> {
    seq(|texts|, i requires 0 <= i < |texts| => Tok(texts[i])) + [last]
  }

  lemma {:induction false} PullsOf(texts: seq<PyStr>, last: Pull)
    requires !last.Tok?
    ensures Tokens(Pulls(texts, last)) == texts
    ensures Ending(Pulls(texts, last)) == last
  {
    var p := Pulls(texts, last);
    if texts != [] {
      assert p[1..] == Pulls(texts[1..], last);
      PullsOf(texts[1..], last);
      assert forall i :: 0 <= i < |texts| ==> p[i] == Tok(texts[i]);
    }
  }

  /** The run of the server over this stream; a consumer that closes does so at the yield of the last token. */
  predicate Serves(s: Stream, items: seq<Item>, failure: Option<Exc>, leave: Leave, recording: Recording,
                   timedOut: bool)
  {
    && s.pulls == Pulls(Given(items, leave), LastPull(Outward(items, failure, leave, recording), timedOut))
    && s.cut == if BodyEnd(items, failure, leave) == Exits then Some(|Prologue(s)| + |Given(items, leave)| - 1)
                else None
  }

  /** The saved message is all the text that was given. It is complete exactly when the API stream ended
      without failing, the consumer stayed to the end, and the counter call was not cancelled: going over
      quota, and a counter that fails, change nothing. */
  lemma SavedIsTheModelsText(s: Stream, items: seq<Item>, failure: Option<Exc>, leave: Leave,
                             recording: Recording, timedOut: bool)
    requires Serves(s, items, failure, leave, recording, timedOut)
    ensures var text := Concat(Given(items, leave));
            var complete := failure == None && !(leave.InterruptsWait? && leave.item <= |items|)
                            && !(leave.ClosesAtYield? && 0 < leave.n <= |Deltas(items)|)
                            && !(recording.Stalls? && UsageSeen(items, leave) > 0);
            Saved(s) == if text == [] then None else Some(Message(text, if complete then COMPLETE else TRUNCATED))
  {
    hide Given, UsageSeen, Saved, Pulled, CutEarly, Prologue, Pulls, Tokens, Ending, Yielded, TokenCount;
    var texts := Given(items, leave);
    var end := Outward(items, failure, leave, recording);
    PullsOf(texts, LastPull(end, timedOut));
    if BodyEnd(items, failure, leave) == Exits {
      SomeGiven(items, leave.n);
      assert texts[..|texts|] == texts;
      CutAtToken(s, |texts|);
    } else {
      NoneCut(s);
    }
    SavedIs(s, Concat(texts), BodyEnd(items, failure, leave) == Returns && end == Returns);
  }

  lemma {:induction false} SomeGiven(items: seq<Item>, n: nat)
    requires 0 < n <= |Deltas(items)|
    ensures Given(items, ClosesAtYield(n)) != []
  {
    var m := |items| - 1;
    if n <= |Deltas(items[..m])| {
      SomeGiven(items[..m], n);
      var k := ReadUntil(items[..m], n);
      assert items[..m][..k] == items[..k];
    } else {
      assert items[..|items|] == items;
    }
  }

  /** The accounting is meant never to spoil a delivered answer. It does when it outlasts the wait for the next
      token: the whole text was given, yet the client gets an error and the message is saved as truncated. */
  lemma StalledAccountingSpoilsTheAnswer(left: Redis.Db)
    ensures var items := [Delta([65]), Usage(1)];
            var s := Stream([], [], false, Pulls([[65]], Raise(ChunkTimeout)), None, None);
            && Serves(s, items, None, Stays, Stalls(left), true)
            && Given(items, Stays) == Deltas(items)
            && Yielded(s) == [TokenFrame([65]), ErrorFrame(ChunkTimeout)]
            && Saved(s) == Some(Message([65], TRUNCATED))
  {
    var items := [Delta([65]), Usage(1)];
    var s := Stream([], [], false, Pulls([[65]], Raise(ChunkTimeout)), None, None);
    assert items[..2] == items && items[..1] == [Delta([65])] && items[..1][..0] == [];
    assert Deltas(items[..1]) == [[65]] && Deltas(items) == [[65]] && LastUsage(items) == 1;
    assert Given(items, Stays) == [[65]] && UsageSeen(items, Stays) == 1;
    PullsOf([[65]], Raise(ChunkTimeout));
    assert Concat([[65]]) == [65];
    assert Yielded(s) == [] + TokenFrames([[65]]) + [ErrorFrame(ChunkTimeout)];
  }

  // ---------------------------------------------------------------- what was given, counted and told

  /** Deltas are kept one by one and in order, other items give none. */
  lemma {:induction false} DeltasAppend(a: seq<Item>, b: seq<Item>)
    ensures Deltas(a + b) == Deltas(a) + Deltas(b)
    ensures |b| == 1 ==> Deltas(b) == match b[0] case Delta(text) => [text] case _ => []
  {
    if b == [] {
      assert a + b == a;
    } else {
      var m := |b| - 1;
      DeltasAppend(a, b[..m]);
      assert (a + b)[..|a + b| - 1] == a + b[..m];
      assert m == 0 ==> Deltas(b[..m]) == [];
    }
  }

  /** The last usage report counts, and without one nothing does. */
  lemma {:induction false} LastUsageIs(items: seq<Item>, k: nat)
    requires k <= |items| && forall i :: k <= i < |items| ==> !items[i].Usage?
    ensures k == 0 ==> LastUsage(items) == 0
    ensures k > 0 && items[k - 1].Usage? ==> LastUsage(items) == items[k - 1].completionTokens
  {
    if k < |items| {
      LastUsageIs(items[..|items| - 1], k);
    }
  }

  /** A caller that stays is given all deltas, one that closes at its n-th yield the first n, and one whose wait
      for an item is cancelled those before it. */
  lemma GivenIs(items: seq<Item>, leave: Leave)
    ensures Given(items, leave) ==
            if leave.ClosesAtYield? && 0 < leave.n <= |Deltas(items)| then Deltas(items)[..leave.n]
            else if leave.InterruptsWait? && leave.item <= |items| then Deltas(items[..leave.item])
            else Deltas(items)
  {
    assert items[..|items|] == items;
    if leave.ClosesAtYield? {
      if 0 < leave.n <= |Deltas(items)| {
        GivenFirst(items, leave.n);
      } else {
        ReadUntilAll(items, leave.n);
      }
    }
  }

  lemma {:induction false} GivenFirst(items: seq<Item>, n: nat)
    requires 0 < n <= |Deltas(items)|
    ensures Deltas(items[..ReadUntil(items, n)]) == Deltas(items)[..n]
    ensures ReadUntil(items, n) > 0 && items[ReadUntil(items, n) - 1].Delta?
  {
    var front := items[..|items| - 1];
    if n <= |Deltas(front)| {
      GivenFirst(front, n);
      var k := ReadUntil(front, n);
      assert front[..k] == items[..k];
    } else {
      assert items[..|items|] == items;
    }
  }

  /** What a client that stays is told: the error of the API stream, a timeout when a wait or the counter call
      was cancelled by one, nothing when the client itself caused it, and otherwise that the answer is done. */
  lemma ClientIsTold(s: Stream, items: seq<Item>, failure: Option<Exc>, leave: Leave, recording: Recording,
                     timedOut: bool)
    requires Serves(s, items, failure, leave, recording, timedOut) && !leave.ClosesAtYield?
    ensures var interrupted := (leave.InterruptsWait? && leave.item <= |items|)
                               || (recording.Stalls? && UsageSeen(items, leave) > 0);
            && (DoneFrame in Yielded(s) <==> !interrupted && failure == None)
            && (forall e :: ErrorFrame(e) in Yielded(s) <==>
                  if interrupted then timedOut && e == ChunkTimeout else failure == Some(e))
  {
    var texts, last := Given(items, leave), LastPull(Outward(items, failure, leave, recording), timedOut);
    assert Toks(texts) + [last] == Pulls(texts, last);
    hide Given, UsageSeen, Yielded;
    FramesOfAWholeRun(s, texts, last);
  }
}
