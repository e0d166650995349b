/** The server side of the answer stream: which frames one run yields and what it saves. */
module SseServer {
  import opened Sequences
  import opened Text
  import opened Wrappers
  import opened Json

  datatype Exc =
    | ChunkTimeout
    | ApiTimeout
    | DailyTokenQuota
    | DailyQueryQuota
    | CircuitOpen
    | RetryExhausted
    | TokenInvalid
    | TokenExpired
    | Unexpected

  /** What awaiting the next token may give; Cancelled stands for the client going away while waiting. */
  datatype Pull = Tok(text: PyStr) | Stop | Raise(exc: Exc) | Cancelled

  datatype Source = Source(documentId: PyStr, filename: PyStr, chunkIndex: nat)

  /** One run: its arguments, the outcome of every await, a failure while building the sources payload,
      and the yield at which the consumer goes away, if any. */
  datatype Stream = Stream(
    missingIds: seq<PyStr>,
    sources: seq<Source>,
    isFallback: bool,
    pulls: seq<Pull>,
    sourcesError: Option<Exc>,
    cut: Option<nat>)

  datatype Frame =
    | MetaFrame(ids: seq<PyStr>)
    | TokenFrame(text: PyStr)
    | SourcesFrame(sources: seq<Source>)
    | FallbackFrame
    | DoneFrame
    | ErrorFrame(exc: Exc)

  datatype Status = COMPLETE | TRUNCATED

  datatype Message = Message(content: PyStr, status: Status)

  // ---------------------------------------------------------------- frames as text

  function ErrorCode(e: Exc): Str {
    match e
    case ChunkTimeout | ApiTimeout => Ascii("STREAM_TIMEOUT")
    case DailyTokenQuota | DailyQueryQuota => Ascii("DAILY_QUOTA_EXCEEDED")
    case CircuitOpen | RetryExhausted => Ascii("AI_SERVICE_UNAVAILABLE")
    case TokenInvalid | TokenExpired => Ascii("TOKEN_EXPIRED")
    case Unexpected => Ascii("STREAM_ERROR")
  }

  function ErrorMessage(e: Exc): Str {
    match e
    case ChunkTimeout | ApiTimeout => Ascii("The response took too long to generate. Please try again.")
    case DailyTokenQuota => Ascii("You have reached your daily usage limit. Please try again tomorrow.")
    case DailyQueryQuota => Ascii("You have reached your daily query limit. Please try again tomorrow.")
    case CircuitOpen | RetryExhausted =>
      Ascii("The AI service is temporarily unavailable. Please try again shortly.")
    case TokenInvalid | TokenExpired => Ascii("Session expired. Please log in again.")
    case Unexpected => Ascii("An unexpected error occurred while generating the response.")
  }

  function Strings(ids: seq<PyStr>): seq<PyJson> {
    seq(|ids|, i requires 0 <= i < |ids| => PStr(ids[i]))
  }

  function SourceJson(s: Source): PyJson {
    PDict([PyField(Ascii("document_id"), PStr(s.documentId)),
           PyField(Ascii("filename"), PStr(s.filename)),
           PyField(Ascii("chunk_index"), PInt(s.chunkIndex))])
  }

  function SourcesJson(sources: seq<Source>): PyJson {
    PList(seq(|sources|, i requires 0 <= i < |sources| => SourceJson(sources[i])))
  }

  function ErrorPayload(code: Str, message: Str): PyJson {
    PDict([PyField(Ascii("error"), PStr(code)), PyField(Ascii("message"), PStr(message))])
  }

  function Payload(f: Frame): PyJson
    requires f != DoneFrame
  {
    match f
    case MetaFrame(ids) => PDict([PyField(Ascii("missing_document_ids"), PList(Strings(ids)))])
    case TokenFrame(text) =>
      PDict([PyField(Ascii("type"), PStr(Ascii("token"))),
             PyField(Ascii("content"), PStr(text))])
    case SourcesFrame(sources) =>
      PDict([PyField(Ascii("type"), PStr(Ascii("sources"))),
             PyField(Ascii("chunks"), SourcesJson(sources))])
    case FallbackFrame => PDict([PyField(Ascii("type"), PStr(Ascii("fallback")))])
    case ErrorFrame(e) => ErrorPayload(ErrorCode(e), ErrorMessage(e))
  }

  /** A frame without its delimiter. */
  function Body(f: Frame): Str {
    match f
    case MetaFrame(_) => Ascii("event: meta") + [NEWLINE] + Ascii("data: ") + Dumps(Payload(f))
    case DoneFrame => Ascii("data: [DONE]")
    case _ => Ascii("data: ") + Dumps(Payload(f))
  }

  function Bodies(frames: seq<Frame>): (r: seq<Str>)
    ensures |r| == |frames|
    ensures forall i :: 0 <= i < |r| ==> r[i] == Body(frames[i])
  {
    seq(|frames|, i requires 0 <= i < |frames| => Body(frames[i]))
  }

  /** The text sent for a sequence of frames. */
  function Sent(frames: seq<Frame>): Str {
    if frames == [] then [] else Body(frames[0]) + DELIMITER + Sent(frames[1..])
  }

  // ---------------------------------------------------------------- a run in closed form

  function TokenCount(pulls: seq<Pull>): (n: nat)
    ensures n <= |pulls|
    ensures forall i :: 0 <= i < n ==> pulls[i].Tok?
    ensures n < |pulls| ==> !pulls[n].Tok?
  {
    if pulls != [] && pulls[0].Tok? then 1 + TokenCount(pulls[1..]) else 0
  }

  /** The tokens the model produced before its stream ended. */
  function Tokens(pulls: seq<Pull>): (r: seq<PyStr>)
    ensures |r| == TokenCount(pulls)
  {
    seq(TokenCount(pulls), i requires 0 <= i < TokenCount(pulls) => pulls[i].text)
  }

  function Ending(pulls: seq<Pull>): Pull {
    if TokenCount(pulls) < |pulls| then pulls[TokenCount(pulls)] else Cancelled
  }

  function Prologue(s: Stream): seq<Frame> {
    if s.missingIds == [] then [] else [MetaFrame(s.missingIds)]
  }

  function TokenFrames(tokens: seq<PyStr>): (r: seq<Frame>)
    ensures |r| == |tokens|
    ensures forall i :: 0 <= i < |r| ==> r[i] == TokenFrame(tokens[i])
  {
    seq(|tokens|, i requires 0 <= i < |tokens| => TokenFrame(tokens[i]))
  }

  function Closing(s: Stream): seq<Frame> {
    match Ending(s.pulls)
    case Stop =>
      if s.sourcesError.Some? then [DoneFrame]
      else [SourcesFrame(s.sources)] + (if s.isFallback then [FallbackFrame] else []) + [DoneFrame]
    case Raise(e) => [ErrorFrame(e)]
    case _ => []
  }

  /** The frames of the run if the consumer stays. */
  function AllFrames(s: Stream): seq<Frame> {
    Prologue(s) + TokenFrames(Tokens(s.pulls)) + Closing(s)
  }

  function Yielded(s: Stream): seq<Frame> {
    if s.cut.Some? && s.cut.value < |AllFrames(s)| then AllFrames(s)[..s.cut.value + 1] else AllFrames(s)
  }

  /** The consumer went away at a yield before the model's stream had ended. */
  predicate CutEarly(s: Stream) {
    s.cut.Some? && s.cut.value < |Prologue(s)| + TokenCount(s.pulls)
  }

  /** The tokens taken from the model in this run. */
  function Pulled(s: Stream): seq<PyStr> {
    if !CutEarly(s) then Tokens(s.pulls)
    else if s.cut.value < |Prologue(s)| then []
    else Tokens(s.pulls)[..s.cut.value + 1 - |Prologue(s)|]
  }

  function Saved(s: Stream): Option<Message> {
    if Concat(Pulled(s)) == [] then None
    else Some(Message(Concat(Pulled(s)), if Ending(s.pulls) == Stop && !CutEarly(s) then COMPLETE else TRUNCATED))
  }

  // ---------------------------------------------------------------- the generator

  /** Whatever ends the run, what is saved is the concatenation of the tokens pulled, marked complete
      exactly when the model's stream ended normally while the consumer was still there. */
  method SseGenerator(s: Stream) returns (frames: seq<Frame>, saved: Option<Message>)
    ensures frames == Yielded(s)
    ensures saved == Saved(s)
  {
    hide Yielded, AllFrames, Closing, Pulled, TokenFrames, Tokens, TokenCount, Ending, CutEarly, Saved, Concat;
    frames, saved := [], None;
    if s.missingIds != [] {
      frames := [MetaFrame(s.missingIds)];
      if s.cut == Some(0) {
        CutAtMeta(s);
        return;
      }
    }
    var accumulated: PyStr, completed, gone, raised := [], false, false, None;
    var i := 0;
    ghost var tokens := Tokens(s.pulls);
    NothingYet(tokens);
    while true
      invariant i <= |tokens|
      invariant frames == Prologue(s) + TokenFrames(tokens[..i])
      invariant accumulated == Concat(tokens[..i])
      invariant s.cut.Some? ==> |frames| <= s.cut.value
      invariant !completed && !gone && raised == None
      decreases |s.pulls| - i
    {
      PullAt(s.pulls, i);
      var pull := if i < |s.pulls| then s.pulls[i] else Cancelled;
      match pull {
        case Stop => completed := true; break;
        case Raise(e) => raised := Some(e); break;
        case Cancelled => break;
        case Tok(text) =>
          NextToken(tokens, i, Prologue(s));
          accumulated := accumulated + text;
          frames := frames + [TokenFrame(text)];
          i := i + 1;
          if s.cut == Some(|frames| - 1) {
            CutAtToken(s, i);
            gone := true;
            break;
          }
      }
    }
    assert i == |tokens| ==> tokens[..i] == tokens;
    if !gone {
      NoneCut(s);
      frames := Conclude(s, frames, completed, raised);
    }
    SavedIs(s, accumulated, completed);
    if accumulated != [] {
      saved := Some(Message(accumulated, if completed then COMPLETE else TRUNCATED));
    }
  }

  lemma PullAt(pulls: seq<Pull>, i: nat)
    requires i <= |Tokens(pulls)|
    ensures var pull := if i < |pulls| then pulls[i] else Cancelled;
            && |Tokens(pulls)| <= |pulls|
            && (pull.Tok? <==> i < |Tokens(pulls)|)
            && pull == if i < |Tokens(pulls)| then Tok(Tokens(pulls)[i]) else Ending(pulls)
  {
  }

  lemma NothingYet(tokens: seq<PyStr>)
    ensures TokenFrames(tokens[..0]) == [] && Concat(tokens[..0]) == []
  {
  }

  lemma NextToken(tokens: seq<PyStr>, i: nat, prologue: seq<Frame>)
    requires i < |tokens|
    ensures prologue + TokenFrames(tokens[..i + 1]) == prologue + TokenFrames(tokens[..i]) + [TokenFrame(tokens[i])]
    ensures Concat(tokens[..i + 1]) == Concat(tokens[..i]) + tokens[i]
  {
    assert tokens[..i + 1] == tokens[..i] + [tokens[i]];
    ConcatSnoc(tokens[..i], tokens[i]);
  }

  /** The end of the try block and its handlers: citations, the fallback signal and the terminal frame. */
  method Conclude(s: Stream, before: seq<Frame>, completed: bool, raised: Option<Exc>) returns (frames: seq<Frame>)
    requires !CutEarly(s) && before == Prologue(s) + TokenFrames(Tokens(s.pulls))
    requires Ending(s.pulls) == if completed then Stop else if raised.Some? then Raise(raised.value) else Cancelled
    ensures frames == Yielded(s)
  {
    YieldedClosing(s);
    var closing: seq<Frame> := [];
    var n := |before|;
    if completed && s.sourcesError.None? {
      closing := [SourcesFrame(s.sources)];
      if s.isFallback && s.cut != Some(n) {
        closing := closing + [FallbackFrame];
      }
      if s.cut != Some(n + |closing| - 1) && s.cut != Some(n) {
        closing := closing + [DoneFrame];
      }
    } else if completed {
      closing := [DoneFrame];
    } else if raised.Some? {
      closing := [ErrorFrame(raised.value)];
    }
    frames := before + closing;
  }

  lemma CutAtMeta(s: Stream)
    requires s.missingIds != [] && s.cut == Some(0)
    ensures Yielded(s) == [MetaFrame(s.missingIds)] && Saved(s) == None
  {
  }

  lemma SavedIs(s: Stream, accumulated: PyStr, completed: bool)
    requires accumulated == Concat(Pulled(s)) && (completed <==> Ending(s.pulls) == Stop && !CutEarly(s))
    ensures Saved(s) == if accumulated == [] then None
                        else Some(Message(accumulated, if completed then COMPLETE else TRUNCATED))
  {
  }

  lemma NoneCut(s: Stream)
    requires s.cut.Some? ==> |Prologue(s)| + |Tokens(s.pulls)| <= s.cut.value
    ensures !CutEarly(s) && Pulled(s) == Tokens(s.pulls)
  {
  }

  lemma CutAtToken(s: Stream, i: nat)
    requires 0 < i <= |Tokens(s.pulls)|
    requires s.cut == Some(|Prologue(s)| + i - 1)
    ensures CutEarly(s)
    ensures Yielded(s) == Prologue(s) + TokenFrames(Tokens(s.pulls)[..i])
    ensures Pulled(s) == Tokens(s.pulls)[..i]
  {
  }

  lemma YieldedClosing(s: Stream)
    requires !CutEarly(s)
    ensures var base := Prologue(s) + TokenFrames(Tokens(s.pulls));
            Yielded(s) == base + if s.cut.Some? && s.cut.value < |base| + |Closing(s)|
                                 then Closing(s)[..s.cut.value + 1 - |base|] else Closing(s)
  {
  }

  // ---------------------------------------------------------------- what a run guarantees

  predicate Terminal(f: Frame) { f == DoneFrame || f.ErrorFrame? }

  /** The consumer saw the stream end by itself. */
  predicate RanToEnd(s: Stream) {
    Ending(s.pulls) != Cancelled && (s.cut.None? || s.cut.value >= |AllFrames(s)|)
  }

  lemma NoTokenEnding(pulls: seq<Pull>)
    ensures !Ending(pulls).Tok?
  {
  }

  lemma ClosingTerminal(s: Stream)
    ensures var closing := Closing(s);
            && (closing != [] <==> Ending(s.pulls) != Cancelled)
            && (closing != [] ==> Terminal(closing[|closing| - 1]))
            && forall i :: 0 <= i < |closing| - 1 ==> !Terminal(closing[i])
  {
    NoTokenEnding(s.pulls);
    hide TokenCount, Ending;
  }

  /** In a whole run only the last frame can be terminal, and it is unless the run was cancelled. */
  lemma LastIsTerminal(s: Stream, i: nat)
    requires i < |AllFrames(s)|
    ensures Terminal(AllFrames(s)[i]) <==> Ending(s.pulls) != Cancelled && i == |AllFrames(s)| - 1
  {
    ClosingTerminal(s);
    hide TokenCount, Tokens, Ending, Closing;
    var before := Prologue(s) + TokenFrames(Tokens(s.pulls));
    assert AllFrames(s) == before + Closing(s);
    assert forall k :: 0 <= k < |before| ==> !Terminal(before[k]);
  }

  /** A run that is not cut off ends with exactly one terminal frame; a run cut off before it has none. */
  lemma OneTerminalFrame(s: Stream)
    ensures var f := Yielded(s);
            && (forall i :: 0 <= i < |f| - 1 ==> !Terminal(f[i]))
            && (RanToEnd(s) ==> f != [] && Terminal(f[|f| - 1]))
            && (f != [] && Terminal(f[|f| - 1]) <==>
                Ending(s.pulls) != Cancelled && (s.cut.None? || s.cut.value >= |AllFrames(s)| - 1))
  {
    var all := AllFrames(s);
    ClosingTerminal(s);
    assert Ending(s.pulls) != Cancelled ==> all != [];
    forall i | 0 <= i < |all|
      ensures Terminal(all[i]) <==> Ending(s.pulls) != Cancelled && i == |all| - 1
    {
      LastIsTerminal(s, i);
    }
    hide AllFrames, Ending, Closing, Terminal;
  }

  function TokenTexts(frames: seq<Frame>): seq<PyStr> {
    if frames == [] then []
    else (if frames[0].TokenFrame? then [frames[0].text] else []) + TokenTexts(frames[1..])
  }

  lemma {:induction false} TokenTextsAppend(a: seq<Frame>, b: seq<Frame>)
    ensures TokenTexts(a + b) == TokenTexts(a) + TokenTexts(b)
  {
    if a == [] {
      assert a + b == b;
    } else {
      assert (a + b)[1..] == a[1..] + b;
      TokenTextsAppend(a[1..], b);
    }
  }

  lemma {:induction false} TokenTextsOfTokens(tokens: seq<PyStr>)
    ensures TokenTexts(TokenFrames(tokens)) == tokens
  {
    if tokens != [] {
      assert TokenFrames(tokens)[1..] == TokenFrames(tokens[1..]);
      TokenTextsOfTokens(tokens[1..]);
    }
  }

  lemma {:induction false} NoTokenTexts(frames: seq<Frame>)
    requires forall i :: 0 <= i < |frames| ==> !frames[i].TokenFrame?
    ensures TokenTexts(frames) == []
  {
    if frames != [] {
      NoTokenTexts(frames[1..]);
    }
  }

  /** Every token pulled was yielded, in order, and nothing else was: the saved text is what the frames say. */
  lemma YieldedTokens(s: Stream)
    ensures TokenTexts(Yielded(s)) == Pulled(s)
  {
    var tokens, n := Tokens(s.pulls), |Prologue(s)|;
    if CutEarly(s) && s.cut.value < n {
      assert Yielded(s) == Prologue(s);
      NoTokenTexts(Prologue(s));
    } else if CutEarly(s) {
      var i := s.cut.value + 1 - n;
      CutAtToken(s, i);
      TokenTextsOfRun(s, tokens[..i], []);
      assert Yielded(s) == Prologue(s) + TokenFrames(tokens[..i]) + [];
    } else {
      YieldedClosing(s);
      var rest := Yielded(s)[n + |tokens|..];
      assert Yielded(s) == Prologue(s) + TokenFrames(tokens) + rest;
      TokenTextsOfRun(s, tokens, rest);
    }
  }

  lemma TokenTextsOfRun(s: Stream, tokens: seq<PyStr>, rest: seq<Frame>)
    requires rest <= Closing(s)
    ensures TokenTexts(Prologue(s) + TokenFrames(tokens) + rest) == tokens
  {
    NoTokenTexts(Prologue(s));
    NoTokenTexts(rest);
    TokenTextsOfTokens(tokens);
    TokenTextsAppend(Prologue(s), TokenFrames(tokens));
    TokenTextsAppend(Prologue(s) + TokenFrames(tokens), rest);
  }

  // ---------------------------------------------------------------- which frames a run sends

  function Toks(tokens: seq<PyStr>): (r: seq<Pull>)
    ensures |r| == |tokens|
    ensures forall i :: 0 <= i < |r| ==> r[i] == Tok(tokens[i])
  {
    seq(|tokens|, i requires 0 <= i < |tokens| => Tok(tokens[i]))
  }

  /** The model's stream gave these tokens and then this end; what it would give later is never asked for. */
  predicate Gives(s: Stream, tokens: seq<PyStr>, last: Pull) {
    && !last.Tok?
    && Toks(tokens) + [last] <= s.pulls
  }

  lemma {:induction false} PullsTokens(pulls: seq<Pull>, tokens: seq<PyStr>, last: Pull)
    requires !last.Tok? && Toks(tokens) + [last] <= pulls
    ensures Tokens(pulls) == tokens && Ending(pulls) == last
  {
    var n := |tokens|;
    assert forall i :: 0 <= i < n ==> pulls[i] == (Toks(tokens) + [last])[i];
    assert pulls[n] == (Toks(tokens) + [last])[n];
    assert TokenCount(pulls) == n;
  }

  /** How often x occurs in f. */
  function Count(f: seq<Frame>, x: Frame): nat { multiset(f)[x] }

  lemma WholeRun(s: Stream, tokens: seq<PyStr>, last: Pull)
    requires s.cut == None && Gives(s, tokens, last)
    ensures Yielded(s) == Prologue(s) + TokenFrames(tokens) + Closing(s) && Ending(s.pulls) == last
  {
    PullsTokens(s.pulls, tokens, last);
  }

  lemma FramesOfTheEnd(s: Stream)
    ensures var c := Closing(s);
            var last := Ending(s.pulls);
            var ended := last == Stop && s.sourcesError == None;
            && Count(c, FallbackFrame) == (if ended && s.isFallback then 1 else 0)
            && Count(c, SourcesFrame(s.sources)) == (if ended then 1 else 0)
            && (forall x :: x in c <==>
                  || (x == SourcesFrame(s.sources) && ended)
                  || (x == FallbackFrame && ended && s.isFallback)
                  || (x == DoneFrame && last == Stop)
                  || (last.Raise? && x == ErrorFrame(last.exc)))
            && (last == Stop ==>
                  c == if !ended then [DoneFrame]
                       else if s.isFallback then [SourcesFrame(s.sources), FallbackFrame, DoneFrame]
                       else [SourcesFrame(s.sources), DoneFrame])
  {
    NoTokenEnding(s.pulls);
    hide Ending;
  }

  /** Whatever the model produced: the fallback signal is sent exactly when the answer is a fallback and ended
      well, the citations exactly when it ended well, each once and right before the DONE frame; an error frame
      exactly for the failure of the model's stream; the missing documents first, exactly when there are any. */
  lemma FramesOfAWholeRun(s: Stream, tokens: seq<PyStr>, last: Pull)
    requires s.cut == None && Gives(s, tokens, last)
    ensures var f := Yielded(s);
            var ended := last == Stop && s.sourcesError == None;
            && Count(f, FallbackFrame) == (if ended && s.isFallback then 1 else 0)
            && Count(f, SourcesFrame(s.sources)) == (if ended then 1 else 0)
            && (FallbackFrame in f <==> ended && s.isFallback)
            && (forall x :: SourcesFrame(x) in f <==> ended && x == s.sources)
            && (DoneFrame in f <==> last == Stop)
            && (forall e :: ErrorFrame(e) in f <==> last == Raise(e))
            && (forall ids :: MetaFrame(ids) in f <==> ids != [] && ids == s.missingIds)
  {
    hide Yielded, Tokens, TokenCount, Closing, Gives, Ending, Count;
    WholeRun(s, tokens, last);
    FramesOfTheEnd(s);
    var front := Prologue(s) + TokenFrames(tokens);
    InFront(s, tokens);
    FramesIn(front, Closing(s));
    hide Prologue, TokenFrames;
  }

  lemma InFront(s: Stream, tokens: seq<PyStr>)
    ensures var front := Prologue(s) + TokenFrames(tokens);
            && (forall x :: x in front ==> x.MetaFrame? || x.TokenFrame?)
            && (forall ids :: MetaFrame(ids) in front <==> ids != [] && ids == s.missingIds)
  {
  }

  lemma FrontOf(s: Stream, tokens: seq<PyStr>)
    ensures var front := Prologue(s) + TokenFrames(tokens);
            var first := if s.missingIds == [] then 0 else 1;
            && |front| == first + |tokens|
            && (s.missingIds != [] ==> front[0] == MetaFrame(s.missingIds))
            && (forall i :: 0 <= i < |tokens| ==> front[first + i] == TokenFrame(tokens[i]))
  {
    hide TokenFrames;
    assert s.missingIds == [] ==> Prologue(s) + TokenFrames(tokens) == TokenFrames(tokens);
  }

  lemma InTwoParts(a: seq<Frame>, b: seq<Frame>)
    ensures (a + b)[|a|..] == b && forall i :: 0 <= i < |a| ==> (a + b)[i] == a[i]
  {
  }

  /** The order of the frames of a run that ended well. */
  lemma FramesInOrder(s: Stream, tokens: seq<PyStr>)
    requires s.cut == None && Gives(s, tokens, Stop)
    ensures var f := Yielded(s);
            var first := if s.missingIds == [] then 0 else 1;
            var rest := f[first + |tokens|..];
            && first + |tokens| < |f|
            && (s.missingIds != [] ==> f[0] == MetaFrame(s.missingIds))
            && (forall i :: 0 <= i < |tokens| ==> f[first + i] == TokenFrame(tokens[i]))
            && rest == if s.sourcesError.Some? then [DoneFrame]
                       else if s.isFallback then [SourcesFrame(s.sources), FallbackFrame, DoneFrame]
                       else [SourcesFrame(s.sources), DoneFrame]
  {
    hide Yielded, Tokens, TokenCount, Ending, Closing, Gives, Count, Prologue, TokenFrames;
    WholeRun(s, tokens, Stop);
    FramesOfTheEnd(s);
    FrontOf(s, tokens);
    InTwoParts(Prologue(s) + TokenFrames(tokens), Closing(s));
  }

  lemma FramesIn(front: seq<Frame>, closing: seq<Frame>)
    requires forall x :: x in front ==> x.MetaFrame? || x.TokenFrame?
    ensures forall x :: x in front + closing <==> x in front || x in closing
    ensures forall x: Frame :: !x.MetaFrame? && !x.TokenFrame? ==> Count(front + closing, x) == Count(closing, x)
  {
    assert multiset(front + closing) == multiset(front) + multiset(closing);
    forall x: Frame | !x.MetaFrame? && !x.TokenFrame? ensures multiset(front)[x] == 0 {
      assert x !in front;
    }
  }

  /** A consumer that leaves gets the frames up to and with the one at whose yield it left. */
  lemma CutRunIsAPrefix(s: Stream)
    ensures var whole := Yielded(s.(cut := None));
            && Yielded(s) <= whole
            && (s.cut.Some? && s.cut.value < |whole| ==> |Yielded(s)| == s.cut.value + 1)
            && (s.cut.None? || s.cut.value >= |whole| ==> Yielded(s) == whole)
  {
    assert AllFrames(s.(cut := None)) == AllFrames(s);
    hide AllFrames;
  }

  /** The saved text is what the token frames carried; it is complete exactly when the model's stream ended
      well and the consumer was still there, even if it left at one of the closing frames. */
  lemma SavedIsWhatWasSent(s: Stream, tokens: seq<PyStr>, last: Pull)
    requires Gives(s, tokens, last)
    ensures var text := Concat(TokenTexts(Yielded(s)));
            var missing := if s.missingIds == [] then 0 else 1;
            var stayed := s.cut.None? || s.cut.value >= missing + |tokens|;
            && Saved(s) == (if text == [] then None
                            else Some(Message(text, if last == Stop && stayed then COMPLETE else TRUNCATED)))
            && (stayed ==> text == Concat(tokens))
  {
    YieldedTokens(s);
    PullsTokens(s.pulls, tokens, last);
    hide Yielded, TokenCount;
  }
}
