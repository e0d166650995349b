/** The answer stream from the generator to the chat message on screen. */
module EndToEnd {
  import opened Sequences
  import opened Text
  import opened Wrappers
  import opened Json
  import opened TextDecoding
  import StreamClient
  import SseServer

  type Frame = SseServer.Frame
  type Effect = StreamClient.Effect

  /** What the reader is meant to make of a frame. */
  function Meaning(f: Frame): StreamClient.Outcome {
    match f
    case MetaFrame(ids) =>
      StreamClient.Emit(StreamClient.Meta(Arr(seq(|ids|, i requires 0 <= i < |ids| => Str(Utf16(ids[i]))))))
    case TokenFrame(text) => StreamClient.Emit(StreamClient.Token(Str(Utf16(text))))
    case SourcesFrame(_) => StreamClient.Skip
    case FallbackFrame => StreamClient.Emit(StreamClient.Fallback)
    case DoneFrame => StreamClient.Finish(StreamClient.Done)
    case ErrorFrame(e) =>
      if e == SseServer.TokenInvalid || e == SseServer.TokenExpired then StreamClient.Finish(StreamClient.LoginRedirect)
      else StreamClient.Finish(StreamClient.Error(Str(SseServer.ErrorCode(e)), Some(Str(SseServer.ErrorMessage(e)))))
  }

  function Meanings(frames: seq<Frame>): (r: seq<StreamClient.Outcome>)
    ensures |r| == |frames|
    ensures forall i :: 0 <= i < |r| ==> r[i] == Meaning(frames[i])
  {
    seq(|frames|, i requires 0 <= i < |frames| => Meaning(frames[i]))
  }

  function EffectOf(outcome: StreamClient.Outcome): seq<Effect> {
    match outcome
    case Skip => []
    case Emit(e) => [e]
    case Finish(e) => [e]
  }

  /** The effects of a run's frames in order, a citations frame having none. */
  function Expected(frames: seq<Frame>): seq<Effect> {
    if frames == [] then [] else EffectOf(Meaning(frames[0])) + Expected(frames[1..])
  }

  // ---------------------------------------------------------------- one frame

  lemma {:induction false} OneLine(t: Str)
    requires Printable(t)
    ensures StreamClient.LineEnd(t) == |t|
  {
    if t != [] {
      OneLine(t[1..]);
    }
  }

  lemma ScanDataLine(d: Str, eventName: Str)
    requires Printable(d)
    ensures var t := Ascii("data: ") + d;
            StreamClient.Lines(t) == [t] && StreamClient.ScanLines([t], [], eventName) == (d, eventName)
  {
    var t := Ascii("data: ") + d;
    OneLine(t);
    var lines := [t];
    assert lines[1..] == [];
    assert t[6..] == d;
    assert StreamClient.DATA_PREFIX <= t;
    assert t[0] == 100 && StreamClient.EVENT_PREFIX[0] == 101;
  }

  lemma DataLine(d: Str)
    requires Printable(d)
    ensures StreamClient.HandleFrame(Ascii("data: ") + d) == StreamClient.Handle(d, StreamClient.MESSAGE)
  {
    ScanDataLine(d, StreamClient.MESSAGE);
  }

  lemma LinesAt(a: Str, b: Str)
    requires StreamClient.LineEnd(a) == |a|
    ensures StreamClient.Lines(a + [NEWLINE] + b) == [a] + StreamClient.Lines(b)
  {
    var t := a + [NEWLINE] + b;
    LineEndAt(a, b);
    assert t[..|a|] == a && t[|a| + 1..] == b;
  }

  lemma MetaName()
    ensures var name := Ascii("event: meta");
            StreamClient.EVENT_PREFIX <= name && StreamClient.Trim(name[7..]) == StreamClient.META
  {
    assert Ascii("event: meta")[7..] == StreamClient.META;
  }

  lemma ScanMetaLines(d: Str)
    requires Printable(d)
    ensures var t := Ascii("event: meta") + [NEWLINE] + Ascii("data: ") + d;
            StreamClient.ScanLines(StreamClient.Lines(t), [], StreamClient.MESSAGE) == (d, StreamClient.META)
  {
    hide StreamClient.Trim;
    var name, data := Ascii("event: meta"), Ascii("data: ") + d;
    assert name + [NEWLINE] + Ascii("data: ") + d == name + [NEWLINE] + data;
    OneLine(name);
    LinesAt(name, data);
    MetaName();
    ScanDataLine(d, StreamClient.META);
    assert ([name] + [data])[1..] == [data];
  }

  lemma MetaLines(d: Str)
    requires Printable(d)
    ensures StreamClient.HandleFrame(Ascii("event: meta") + [NEWLINE] + Ascii("data: ") + d)
         == StreamClient.Handle(d, StreamClient.META)
  {
    ScanMetaLines(d);
  }

  lemma {:induction false} LineEndAt(t: Str, rest: Str)
    requires StreamClient.LineEnd(t) == |t|
    ensures StreamClient.LineEnd(t + [NEWLINE] + rest) == |t|
  {
    if t != [] {
      assert (t + [NEWLINE] + rest)[1..] == t[1..] + [NEWLINE] + rest;
      LineEndAt(t[1..], rest);
    }
  }

  /** A printed payload opens with a brace, is one line, and parses back. */
  lemma PayloadText(f: Frame)
    requires f != SseServer.DoneFrame
    ensures var d := Dumps(SseServer.Payload(f));
            Printable(d) && d != [] && d[0] == LBRACE && Parse(d) == Some(ToJs(SseServer.Payload(f)))
  {
    hide Dumps, Parse, Put, ToJs;
    DictText(SseServer.Payload(f));
  }

  lemma DictText(v: PyJson)
    requires v.PDict?
    ensures Printable(Dumps(v)) && Dumps(v) != [] && Dumps(v)[0] == LBRACE && Parse(Dumps(v)) == Some(ToJs(v))
  {
    hide Parse, ToJs;
    PutPrintable(v, []);
    DumpsParses(v);
  }

  lemma HandlePayload(f: Frame)
    requires f != SseServer.DoneFrame && !f.MetaFrame?
    ensures StreamClient.HandleFrame(SseServer.Body(f)) == StreamClient.HandleJson(Some(ToJs(SseServer.Payload(f))))
  {
    var d := Dumps(SseServer.Payload(f));
    PayloadText(f);
    DataLine(d);
    assert |StreamClient.MESSAGE| != |StreamClient.META|;
    assert StreamClient.DONE_MARK[0] != LBRACE;
  }

  lemma OneField(key: Str, v: PyJson)
    ensures FieldsToJs([PyField(key, v)]) == [(key, ToJs(v))]
  {
    Utf16Bmp(key);
    var fs := [PyField(key, v)];
    assert fs[1..] == [];
  }

  lemma TwoFields(k1: Str, v1: PyJson, k2: Str, v2: PyJson)
    ensures FieldsToJs([PyField(k1, v1), PyField(k2, v2)]) == [(k1, ToJs(v1)), (k2, ToJs(v2))]
  {
    Utf16Bmp(k1);
    OneField(k2, v2);
    var fs := [PyField(k1, v1), PyField(k2, v2)];
    assert fs[1..] == [PyField(k2, v2)];
  }

  lemma OneMember(key: Str, v: Value, other: Str)
    ensures StreamClient.Member([(key, v)], other) == if key == other then Some(v) else None
  {
    var fs := [(key, v)];
    assert fs[..0] == [];
  }

  lemma TwoMembers(k1: Str, v1: Value, k2: Str, v2: Value, other: Str)
    ensures StreamClient.Member([(k1, v1), (k2, v2)], other)
         == if k2 == other then Some(v2) else if k1 == other then Some(v1) else None
  {
    var fs := [(k1, v1), (k2, v2)];
    assert fs[..1] == [(k1, v1)];
    OneMember(k1, v1, other);
  }

  lemma {:induction false} StringsToJs(ids: seq<PyStr>)
    ensures ItemsToJs(SseServer.Strings(ids)) == seq(|ids|, i requires 0 <= i < |ids| => Str(Utf16(ids[i])))
  {
    if ids != [] {
      assert SseServer.Strings(ids)[1..] == SseServer.Strings(ids[1..]);
      StringsToJs(ids[1..]);
    }
  }

  lemma HandleMeta(ids: seq<PyStr>)
    ensures StreamClient.HandleFrame(SseServer.Body(SseServer.MetaFrame(ids))) == Meaning(SseServer.MetaFrame(ids))
  {
    hide StreamClient.HandleFrame, StreamClient.ScanLines, Dumps, Parse, SseServer.Strings, ItemsToJs, Utf16;
    var f := SseServer.MetaFrame(ids);
    PayloadText(f);
    MetaLines(Dumps(SseServer.Payload(f)));
    var v := PList(SseServer.Strings(ids));
    OneField(Ascii("missing_document_ids"), v);
    OneMember(Ascii("missing_document_ids"), ToJs(v), StreamClient.MISSING_IDS);
    StringsToJs(ids);
  }

  /** A payload of two members, the first its type. */
  lemma TypedPayload(kind: Str, key: Str, v: PyJson)
    requires |key| != 4
    ensures var js := ToJs(PDict([PyField(Ascii("type"), PStr(kind)), PyField(key, v)]));
            && StreamClient.Property(js, StreamClient.TYPE) == Some(Str(kind))
            && StreamClient.Property(js, key) == Some(ToJs(v))
  {
    var k := Ascii("type");
    Utf16Bmp(kind);
    TwoFields(k, PStr(kind), key, v);
    assert |k| == 4;
    TwoMembers(k, Str(kind), key, ToJs(v), k);
    TwoMembers(k, Str(kind), key, ToJs(v), key);
  }

  lemma HandleToken(text: PyStr)
    ensures StreamClient.HandleFrame(SseServer.Body(SseServer.TokenFrame(text))) == Meaning(SseServer.TokenFrame(text))
  {
    HandlePayload(SseServer.TokenFrame(text));
    TypedPayload(Ascii("token"), Ascii("content"), PStr(text));
  }

  lemma HandleSources(sources: seq<SseServer.Source>)
    ensures StreamClient.HandleFrame(SseServer.Body(SseServer.SourcesFrame(sources)))
         == Meaning(SseServer.SourcesFrame(sources))
  {
    HandlePayload(SseServer.SourcesFrame(sources));
    TypedPayload(Ascii("sources"), Ascii("chunks"), SseServer.SourcesJson(sources));
    Kinds();
  }

  lemma ThreeFields(k1: Str, v1: PyJson, k2: Str, v2: PyJson, k3: Str, v3: PyJson)
    ensures FieldsToJs([PyField(k1, v1), PyField(k2, v2), PyField(k3, v3)])
         == [(k1, ToJs(v1)), (k2, ToJs(v2)), (k3, ToJs(v3))]
  {
    hide ToJs;
    var fs := [PyField(k1, v1), PyField(k2, v2), PyField(k3, v3)];
    Utf16Bmp(k1);
    TwoFields(k2, v2, k3, v3);
    assert fs[1..] == [PyField(k2, v2), PyField(k3, v3)];
  }

  lemma ThreeMembers(k1: Str, v1: PyJson, k2: Str, v2: PyJson, k3: Str, v3: PyJson)
    requires k1 != k2 && k1 != k3 && k2 != k3
    ensures var js := ToJs(PDict([PyField(k1, v1), PyField(k2, v2), PyField(k3, v3)]));
            && StreamClient.Property(js, k1) == Some(ToJs(v1))
            && StreamClient.Property(js, k2) == Some(ToJs(v2))
            && StreamClient.Property(js, k3) == Some(ToJs(v3))
  {
    ThreeFields(k1, v1, k2, v2, k3, v3);
    assert ToJs(PDict([PyField(k1, v1), PyField(k2, v2), PyField(k3, v3)])).Obj?;
    hide FieldsToJs, Utf16;
    var members := [(k1, ToJs(v1)), (k2, ToJs(v2)), (k3, ToJs(v3))];
    assert members[..2] == [(k1, ToJs(v1)), (k2, ToJs(v2))];
    TwoMembers(k1, ToJs(v1), k2, ToJs(v2), k1);
    TwoMembers(k1, ToJs(v1), k2, ToJs(v2), k2);
  }

  /** A citation as the client would read it. */
  predicate Cites(js: Value, source: SseServer.Source) {
    && StreamClient.Property(js, Ascii("document_id")) == Some(Str(Utf16(source.documentId)))
    && StreamClient.Property(js, Ascii("filename")) == Some(Str(Utf16(source.filename)))
    && var index := StreamClient.Property(js, Ascii("chunk_index"));
       && index.Some? && index.value.Num?
       && Numeral(index.value.lexeme) && Decimal(index.value.lexeme) == source.chunkIndex
  }

  lemma CitesSource(source: SseServer.Source)
    ensures Cites(ToJs(SseServer.SourceJson(source)), source)
  {
    var k1, k2, k3 := Ascii("document_id"), Ascii("filename"), Ascii("chunk_index");
    assert |k1| == 11 && |k2| == 8 && |k3| == 11 && k1[0] != k3[0];
    ThreeMembers(k1, PStr(source.documentId), k2, PStr(source.filename), k3, PInt(source.chunkIndex));
    NumeralValue(source.chunkIndex);
    hide StreamClient.Property, Numeral, Decimal;
  }

  lemma {:induction false} ItemsToJsAt(items: seq<PyJson>)
    ensures |ItemsToJs(items)| == |items|
    ensures forall i :: 0 <= i < |items| ==> ItemsToJs(items)[i] == ToJs(items[i])
  {
    if items != [] {
      hide ToJs;
      ItemsToJsAt(items[1..]);
    }
  }

  /** The citations frame carries the cited chunks in order, whatever their names hold. */
  lemma CitationsPayload(sources: seq<SseServer.Source>)
    ensures var parsed := Parse(Dumps(SseServer.Payload(SseServer.SourcesFrame(sources))));
            && parsed.Some?
            && StreamClient.Property(parsed.value, Ascii("type")) == Some(Str(Ascii("sources")))
            && var chunks := StreamClient.Property(parsed.value, Ascii("chunks"));
               && chunks.Some? && chunks.value.Arr? && |chunks.value.items| == |sources|
               && forall i :: 0 <= i < |sources| ==> Cites(chunks.value.items[i], sources[i])
  {
    hide Parse, Dumps, StreamClient.Property, Cites, ItemsToJs;
    PayloadText(SseServer.SourcesFrame(sources));
    var list := SseServer.SourcesJson(sources);
    TypedPayload(Ascii("sources"), Ascii("chunks"), list);
    ItemsToJsAt(list.items);
    forall i | 0 <= i < |sources| ensures Cites(ToJs(list.items[i]), sources[i]) {
      CitesSource(sources[i]);
    }
  }

  lemma HandleFallback()
    ensures StreamClient.HandleFrame(SseServer.Body(SseServer.FallbackFrame)) == Meaning(SseServer.FallbackFrame)
  {
    hide StreamClient.HandleFrame, SseServer.Body, Dumps, Parse;
    HandlePayload(SseServer.FallbackFrame);
    var kind := PStr(Ascii("fallback"));
    Utf16Bmp(Ascii("fallback"));
    OneField(Ascii("type"), kind);
    OneMember(Ascii("type"), ToJs(kind), StreamClient.TYPE);
    Kinds();
  }

  lemma Kinds()
    ensures StreamClient.FALLBACK != StreamClient.TOKEN
    ensures StreamClient.SOURCES != StreamClient.TOKEN && StreamClient.SOURCES != StreamClient.FALLBACK
  {
    assert |StreamClient.TOKEN| == 5 && |StreamClient.SOURCES| == 7 && |StreamClient.FALLBACK| == 8;
  }

  lemma HandleDone()
    ensures StreamClient.HandleFrame(SseServer.Body(SseServer.DoneFrame)) == Meaning(SseServer.DoneFrame)
  {
    hide StreamClient.HandleFrame;
    var d := Ascii("[DONE]");
    DataLine(d);
    assert Ascii("data: ") + d == Ascii("data: [DONE]");
    assert |StreamClient.MESSAGE| != |StreamClient.META|;
  }

  lemma HandleErrorJson(code: Str, message: Str)
    ensures StreamClient.HandleJson(Some(Obj([(Ascii("error"), Str(code)), (Ascii("message"), Str(message))])))
         == StreamClient.Finish(
              if code == StreamClient.TOKEN_EXPIRED || code == StreamClient.INVALID_TOKEN
              then StreamClient.LoginRedirect
              else StreamClient.Error(Str(code), Some(Str(message))))
  {
    var k1, k2 := Ascii("error"), Ascii("message");
    assert |k1| == 5 && |k2| == 7 && |StreamClient.TYPE| == 4;
    TwoMembers(k1, Str(code), k2, Str(message), StreamClient.TYPE);
    TwoMembers(k1, Str(code), k2, Str(message), StreamClient.ERROR);
    TwoMembers(k1, Str(code), k2, Str(message), StreamClient.MESSAGE);
  }

  lemma RedirectCodes(e: SseServer.Exc)
    ensures SseServer.ErrorCode(e) == StreamClient.TOKEN_EXPIRED || SseServer.ErrorCode(e) == StreamClient.INVALID_TOKEN
       <==> e == SseServer.TokenInvalid || e == SseServer.TokenExpired
  {
    assert |StreamClient.TOKEN_EXPIRED| == 13 && |StreamClient.INVALID_TOKEN| == 13;
    if !(e == SseServer.TokenInvalid || e == SseServer.TokenExpired) {
      assert |SseServer.ErrorCode(e)| != 13;
    }
  }

  lemma ErrorPayloadToJs(code: Str, message: Str)
    ensures ToJs(SseServer.ErrorPayload(code, message))
         == Obj([(Ascii("error"), Str(code)), (Ascii("message"), Str(message))])
  {
    Utf16Bmp(code);
    Utf16Bmp(message);
    TwoFields(Ascii("error"), PStr(code), Ascii("message"), PStr(message));
  }

  lemma HandleError(e: SseServer.Exc)
    ensures StreamClient.HandleFrame(SseServer.Body(SseServer.ErrorFrame(e))) == Meaning(SseServer.ErrorFrame(e))
  {
    hide StreamClient.HandleFrame, StreamClient.HandleJson, SseServer.Body, SseServer.ErrorCode, SseServer.ErrorMessage;
    hide SseServer.ErrorPayload, ToJs;
    HandlePayload(SseServer.ErrorFrame(e));
    ErrorPayloadToJs(SseServer.ErrorCode(e), SseServer.ErrorMessage(e));
    HandleErrorJson(SseServer.ErrorCode(e), SseServer.ErrorMessage(e));
    RedirectCodes(e);
  }

  /** The reader undoes the printer, frame by frame, whatever the texts contain. */
  lemma HandleBody(f: Frame)
    ensures StreamClient.HandleFrame(SseServer.Body(f)) == Meaning(f)
  {
    match f
    case MetaFrame(ids) => HandleMeta(ids);
    case TokenFrame(text) => HandleToken(text);
    case SourcesFrame(sources) => HandleSources(sources);
    case FallbackFrame => HandleFallback();
    case DoneFrame => HandleDone();
    case ErrorFrame(e) => HandleError(e);
  }

  // ---------------------------------------------------------------- the whole stream

  predicate Clean(b: Str) {
    StreamClient.FrameShaped(b) && forall i :: 0 <= i < |b| ==> b[i] < 128
  }

  lemma CleanLines(a: Str, b: Str)
    requires Printable(a) && Printable(b)
    ensures Clean(a + b)
    ensures a != [] && b != [] ==> Clean(a + [NEWLINE] + b)
  {
  }

  lemma BodyShape(f: Frame)
    ensures Clean(SseServer.Body(f))
  {
    hide Dumps, Parse, SseServer.Payload;
    var data := Ascii("data: ");
    assert Printable(Ascii("event: meta")) && Printable(data) && Printable(Ascii("data: [DONE]"));
    if f == SseServer.DoneFrame {
      CleanLines(Ascii("data: [DONE]"), []);
      assert Ascii("data: [DONE]") + [] == Ascii("data: [DONE]");
    } else {
      var d := Dumps(SseServer.Payload(f));
      PayloadText(f);
      CleanLines(data, d);
      CleanLines(Ascii("event: meta"), data + d);
      assert Ascii("event: meta") + [NEWLINE] + (data + d) == Ascii("event: meta") + [NEWLINE] + data + d;
    }
  }

  lemma {:induction false} SentIsJoin(frames: seq<Frame>)
    ensures SseServer.Sent(frames) == StreamClient.Join(SseServer.Bodies(frames), [])
  {
    if frames != [] {
      assert SseServer.Bodies(frames)[1..] == SseServer.Bodies(frames[1..]);
      SentIsJoin(frames[1..]);
    }
  }

  /** The sent text falls apart into exactly the frames that were sent, nothing left over. */
  lemma SplitSent(frames: seq<Frame>)
    ensures StreamClient.Split(SseServer.Sent(frames)) == (SseServer.Bodies(frames), [])
  {
    forall i | 0 <= i < |frames|
      ensures StreamClient.FrameShaped(SseServer.Bodies(frames)[i])
    {
      BodyShape(frames[i]);
    }
    SentIsJoin(frames);
    StreamClient.SplitJoin(SseServer.Bodies(frames));
  }

  lemma {:induction false} SentAscii(frames: seq<Frame>)
    ensures forall i :: 0 <= i < |SseServer.Sent(frames)| ==> SseServer.Sent(frames)[i] < 128
  {
    if frames != [] {
      BodyShape(frames[0]);
      SentAscii(frames[1..]);
    }
  }

  lemma OutcomesOfBodies(frames: seq<Frame>)
    ensures StreamClient.Outcomes(SseServer.Bodies(frames)) == Meanings(frames)
  {
    forall i | 0 <= i < |frames|
      ensures StreamClient.Outcomes(SseServer.Bodies(frames))[i] == Meanings(frames)[i]
    {
      HandleBody(frames[i]);
    }
  }

  predicate TerminalLast(frames: seq<Frame>) {
    forall i :: 0 <= i < |frames| - 1 ==> !SseServer.Terminal(frames[i])
  }

  lemma {:induction false} ConsumeMeanings(frames: seq<Frame>)
    requires TerminalLast(frames)
    ensures StreamClient.Consume(Meanings(frames))
         == StreamClient.Consumed(Expected(frames), frames != [] && SseServer.Terminal(frames[|frames| - 1]))
  {
    if frames != [] {
      assert Meanings(frames)[1..] == Meanings(frames[1..]);
      if |frames| > 1 {
        assert !SseServer.Terminal(frames[0]);
      }
      ConsumeMeanings(frames[1..]);
      assert |frames| == 1 ==> Expected(frames[1..]) == [];
    }
  }

  lemma ConsumeSent(frames: seq<Frame>)
    requires TerminalLast(frames)
    ensures StreamClient.ConsumeText(SseServer.Sent(frames))
         == StreamClient.Consumed(Expected(frames), frames != [] && SseServer.Terminal(frames[|frames| - 1]))
  {
    SplitSent(frames);
    OutcomesOfBodies(frames);
    ConsumeMeanings(frames);
  }

  /** The text the token callbacks add up to. */
  function ShownText(effects: seq<Effect>): Str {
    if effects == [] then []
    else (if effects[0].Token? && effects[0].content.Str? then effects[0].content.s else []) + ShownText(effects[1..])
  }

  lemma {:induction false} ShownTextAppend(a: seq<Effect>, b: seq<Effect>)
    ensures ShownText(a + b) == ShownText(a) + ShownText(b)
  {
    if a == [] {
      assert a + b == b;
    } else {
      assert (a + b)[1..] == a[1..] + b;
      ShownTextAppend(a[1..], b);
    }
  }

  lemma TextOfEffect(f: Frame)
    ensures ShownText(EffectOf(Meaning(f))) == if f.TokenFrame? then Utf16(f.text) else []
  {
    var effects := EffectOf(Meaning(f));
    assert effects != [] ==> effects[1..] == [];
    assert f.TokenFrame? ==> Utf16(f.text) + [] == Utf16(f.text);
  }

  lemma {:induction false} ShownTextOfFrames(frames: seq<Frame>)
    ensures ShownText(Expected(frames)) == Utf16(Concat(SseServer.TokenTexts(frames)))
  {
    if frames != [] {
      hide Meaning, ShownText;
      var f, rest := frames[0], frames[1..];
      var texts := SseServer.TokenTexts(rest);
      ShownTextOfFrames(rest);
      ShownTextAppend(EffectOf(Meaning(f)), Expected(rest));
      TextOfEffect(f);
      if f.TokenFrame? {
        assert ([f.text] + texts)[1..] == texts;
        Utf16Append(f.text, Concat(texts));
      } else {
        assert [] + texts == texts && [] + ShownText(Expected(rest)) == ShownText(Expected(rest));
      }
    }
  }

  function SavedText(s: SseServer.Stream): PyStr {
    var saved := SseServer.Saved(s);
    if saved.Some? then saved.value.content else []
  }

  /** What the reader's callbacks are for the given rounds of its loop. */
  function Callbacks(rounds: seq<StreamClient.Read>): seq<Effect> {
    StreamClient.Effects(StreamClient.Received(rounds), StreamClient.ReadFailed(rounds))
  }

  const READ_ERROR := StreamClient.Error(Str(StreamClient.STREAM_ERROR), None)

  /** A stream that arrives whole, cut into network chunks in any way: the callbacks are the meanings of the
      frames the server yielded, in order, then an error if reading fails before a terminal frame; and the
      shown text is the text the server saved. */
  lemma ClientSeesTheRun(s: SseServer.Stream, rounds: seq<StreamClient.Read>)
    requires StreamClient.Received(rounds) == SseServer.Sent(SseServer.Yielded(s))
    ensures var frames := SseServer.Yielded(s);
            var ended := frames != [] && SseServer.Terminal(frames[|frames| - 1]);
            Callbacks(rounds) == Expected(frames)
                                 + if StreamClient.ReadFailed(rounds) && !ended then [READ_ERROR] else []
    ensures ShownText(Callbacks(rounds)) == Utf16(SavedText(s))
  {
    hide SseServer.Yielded, SseServer.Sent, StreamClient.ReadFailed, StreamClient.Received;
    var frames := SseServer.Yielded(s);
    SseServer.OneTerminalFrame(s);
    WholeSent(frames, StreamClient.ReadFailed(rounds));
    ShownTextOfFrames(frames);
    SseServer.YieldedTokens(s);
  }

  lemma WholeSent(frames: seq<Frame>, readFailed: bool)
    requires TerminalLast(frames)
    ensures (forall i :: 0 <= i < |SseServer.Sent(frames)| ==> SseServer.Sent(frames)[i] < 128)
    ensures var ended := frames != [] && SseServer.Terminal(frames[|frames| - 1]);
            StreamClient.Effects(SseServer.Sent(frames), readFailed)
              == Expected(frames) + if readFailed && !ended then [READ_ERROR] else []
    ensures ShownText(StreamClient.Effects(SseServer.Sent(frames), readFailed)) == ShownText(Expected(frames))
  {
    SentAscii(frames);
    DecodeAscii(SseServer.Sent(frames));
    ConsumeSent(frames);
    ErrorShowsNothing(Expected(frames));
  }

  lemma ErrorShowsNothing(effects: seq<Effect>)
    ensures ShownText(effects + [READ_ERROR]) == ShownText(effects)
    ensures effects + [] == effects
  {
    ShownTextAppend(effects, [READ_ERROR]);
    var last := [READ_ERROR];
    assert last[1..] == [] && ShownText(last) == [];
  }

  /** Wherever the connection breaks off, the callbacks made are a prefix of the full run's, possibly followed
      by the read error, and the shown text is a prefix of what the server saved. */
  lemma ClientSeesAPrefix(s: SseServer.Stream, rounds: seq<StreamClient.Read>)
    requires StreamClient.Received(rounds) <= SseServer.Sent(SseServer.Yielded(s))
    ensures var effects := StreamClient.Effects(StreamClient.Received(rounds), false);
            && effects <= Expected(SseServer.Yielded(s))
            && (Callbacks(rounds) == effects || Callbacks(rounds) == effects + [READ_ERROR])
    ensures ShownText(Callbacks(rounds)) <= Utf16(SavedText(s))
  {
    hide SseServer.Yielded, SseServer.Sent, StreamClient.ReadFailed, StreamClient.Received;
    var frames := SseServer.Yielded(s);
    SseServer.OneTerminalFrame(s);
    PrefixOfSent(frames, StreamClient.Received(rounds), StreamClient.ReadFailed(rounds));
    ShownTextOfFrames(frames);
    SseServer.YieldedTokens(s);
  }

  lemma PrefixOfSent(frames: seq<Frame>, got: seq<Byte>, readFailed: bool)
    requires TerminalLast(frames) && got <= SseServer.Sent(frames)
    ensures var effects := StreamClient.Effects(got, false);
            var made := StreamClient.Effects(got, readFailed);
            && effects <= Expected(frames)
            && (made == effects || made == effects + [READ_ERROR])
            && ShownText(made) <= ShownText(Expected(frames))
  {
    var effects := StreamClient.Effects(got, false);
    SentAscii(frames);
    DecodeAscii(got);
    ConsumeSent(frames);
    ConsumePrefix(got, SseServer.Sent(frames));
    ErrorShowsNothing(StreamClient.ConsumeText(got).effects);
    ShownTextPrefix(effects, Expected(frames));
  }

  lemma ConsumePrefix(got: Str, sent: Str)
    requires got <= sent
    ensures StreamClient.ConsumeText(got).effects <= StreamClient.ConsumeText(sent).effects
  {
    StreamClient.ConsumeTextAppend(got, sent[|got|..]);
    assert got + sent[|got|..] == sent;
  }

  lemma ShownTextPrefix(effects: seq<Effect>, all: seq<Effect>)
    requires effects <= all
    ensures ShownText(effects) <= ShownText(all)
  {
    assert all == effects + all[|effects|..];
    ShownTextAppend(effects, all[|effects|..]);
  }

  // ---------------------------------------------------------------- which callbacks a run makes

  lemma {:induction false} ExpectedHas(frames: seq<Frame>, e: Effect)
    ensures e in Expected(frames) <==> exists f :: f in frames && EffectOf(Meaning(f)) == [e]
  {
    if frames != [] {
      hide Meaning;
      var f, rest := frames[0], frames[1..];
      ExpectedHas(rest, e);
      assert frames == [f] + rest;
      assert e in EffectOf(Meaning(f)) <==> EffectOf(Meaning(f)) == [e];
    }
  }

  /** The effects that only one frame has. */
  lemma OnlyFrom(f: Frame)
    ensures EffectOf(Meaning(f)) == [StreamClient.Fallback] <==> f == SseServer.FallbackFrame
    ensures EffectOf(Meaning(f)) == [StreamClient.Done] <==> f == SseServer.DoneFrame
    ensures EffectOf(Meaning(f)) == [StreamClient.LoginRedirect]
       <==> f == SseServer.ErrorFrame(SseServer.TokenInvalid) || f == SseServer.ErrorFrame(SseServer.TokenExpired)
  {
  }

  /** However the bytes are cut, and wherever the run was: the client is told of a fallback, of the end, and sent
      to the login page exactly when the server sent the frame for it. */
  lemma CallbacksFollowFrames(s: SseServer.Stream, rounds: seq<StreamClient.Read>)
    requires StreamClient.Received(rounds) == SseServer.Sent(SseServer.Yielded(s))
    ensures var c, f := Callbacks(rounds), SseServer.Yielded(s);
            && (StreamClient.Fallback in c <==> SseServer.FallbackFrame in f)
            && (StreamClient.Done in c <==> SseServer.DoneFrame in f)
            && (StreamClient.LoginRedirect in c <==>
                || SseServer.ErrorFrame(SseServer.TokenInvalid) in f
                || SseServer.ErrorFrame(SseServer.TokenExpired) in f)
  {
    hide SseServer.Yielded, SseServer.Sent, StreamClient.Received, StreamClient.ReadFailed;
    hide Callbacks, Meaning, Expected;
    var f := SseServer.Yielded(s);
    ClientSeesTheRun(s, rounds);
    ExpectedHas(f, StreamClient.Fallback);
    ExpectedHas(f, StreamClient.Done);
    ExpectedHas(f, StreamClient.LoginRedirect);
    forall x ensures EffectOf(Meaning(x)) == [StreamClient.Fallback] <==> x == SseServer.FallbackFrame
             ensures EffectOf(Meaning(x)) == [StreamClient.Done] <==> x == SseServer.DoneFrame
             ensures EffectOf(Meaning(x)) == [StreamClient.LoginRedirect] <==>
                     || x == SseServer.ErrorFrame(SseServer.TokenInvalid)
                     || x == SseServer.ErrorFrame(SseServer.TokenExpired)
    {
      OnlyFrom(x);
    }
    hide EffectOf;
  }

  /** From the model's stream to the client, for a run that is not cut off. */
  lemma CallbacksOfAWholeRun(s: SseServer.Stream, rounds: seq<StreamClient.Read>, tokens: seq<PyStr>,
                             last: SseServer.Pull)
    requires StreamClient.Received(rounds) == SseServer.Sent(SseServer.Yielded(s))
    requires s.cut == None && SseServer.Gives(s, tokens, last)
    ensures var c := Callbacks(rounds);
            && (StreamClient.Fallback in c <==> last == SseServer.Stop && s.sourcesError == None && s.isFallback)
            && (StreamClient.Done in c <==> last == SseServer.Stop)
            && (StreamClient.LoginRedirect in c
                <==> last == SseServer.Raise(SseServer.TokenInvalid) || last == SseServer.Raise(SseServer.TokenExpired))
  {
    hide SseServer.Yielded, SseServer.Sent, SseServer.Gives, StreamClient.Received, Callbacks;
    CallbacksFollowFrames(s, rounds);
    SseServer.FramesOfAWholeRun(s, tokens, last);
  }

  /** The code a client is to get for a failure that is not about its token. */
  function ClientCode(e: SseServer.Exc): string {
    match e
    case ChunkTimeout | ApiTimeout => "STREAM_TIMEOUT"
    case DailyTokenQuota | DailyQueryQuota => "DAILY_QUOTA_EXCEEDED"
    case CircuitOpen | RetryExhausted => "AI_SERVICE_UNAVAILABLE"
    case _ => "STREAM_ERROR"
  }

  /** And the message. */
  function ClientMessage(e: SseServer.Exc): string {
    match e
    case ChunkTimeout | ApiTimeout => "The response took too long to generate. Please try again."
    case DailyTokenQuota => "You have reached your daily usage limit. Please try again tomorrow."
    case DailyQueryQuota => "You have reached your daily query limit. Please try again tomorrow."
    case CircuitOpen | RetryExhausted => "The AI service is temporarily unavailable. Please try again shortly."
    case _ => "An unexpected error occurred while generating the response."
  }

  lemma ErrorMeaning(e: SseServer.Exc)
    requires e != SseServer.TokenInvalid && e != SseServer.TokenExpired
    ensures EffectOf(Meaning(SseServer.ErrorFrame(e)))
         == [StreamClient.Error(Str(Ascii(ClientCode(e))), Some(Str(Ascii(ClientMessage(e)))))]
  {
    hide Ascii, ClientCode, ClientMessage, SseServer.ErrorCode, SseServer.ErrorMessage;
    CodeIs(e);
    MessageIs(e);
  }

  lemma CodeIs(e: SseServer.Exc)
    requires e != SseServer.TokenInvalid && e != SseServer.TokenExpired
    ensures SseServer.ErrorCode(e) == Ascii(ClientCode(e))
  {
    hide Ascii;
  }

  lemma MessageIs(e: SseServer.Exc)
    requires e != SseServer.TokenInvalid && e != SseServer.TokenExpired
    ensures SseServer.ErrorMessage(e) == Ascii(ClientMessage(e))
  {
    hide Ascii, ClientMessage, SseServer.ErrorMessage;
    if e.DailyTokenQuota? || e.DailyQueryQuota? {
      QuotaMessageIs(e);
    } else {
      OtherMessageIs(e);
    }
  }

  lemma QuotaMessageIs(e: SseServer.Exc)
    requires e.DailyTokenQuota? || e.DailyQueryQuota?
    ensures SseServer.ErrorMessage(e) == Ascii(ClientMessage(e))
  {
    hide Ascii;
  }

  lemma OtherMessageIs(e: SseServer.Exc)
    requires !e.DailyTokenQuota? && !e.DailyQueryQuota? && !e.TokenInvalid? && !e.TokenExpired?
    ensures SseServer.ErrorMessage(e) == Ascii(ClientMessage(e))
  {
    hide Ascii;
  }

  /** A failure that is not about the client's token reaches it with its code and message. */
  lemma ErrorReachesTheClient(s: SseServer.Stream, rounds: seq<StreamClient.Read>, tokens: seq<PyStr>,
                              e: SseServer.Exc)
    requires StreamClient.Received(rounds) == SseServer.Sent(SseServer.Yielded(s))
    requires s.cut == None && SseServer.Gives(s, tokens, SseServer.Raise(e))
    requires e != SseServer.TokenInvalid && e != SseServer.TokenExpired
    ensures StreamClient.Error(Str(Ascii(ClientCode(e))), Some(Str(Ascii(ClientMessage(e))))) in Callbacks(rounds)
  {
    hide SseServer.Yielded, SseServer.Sent, SseServer.Gives, StreamClient.Received, StreamClient.ReadFailed, Callbacks;
    hide Expected, Meaning, EffectOf, ClientCode, ClientMessage, SseServer.Count;
    var f := SseServer.Yielded(s);
    ClientSeesTheRun(s, rounds);
    SseServer.FramesOfAWholeRun(s, tokens, SseServer.Raise(e));
    ErrorMeaning(e);
    ExpectedHas(f, EffectOf(Meaning(SseServer.ErrorFrame(e)))[0]);
  }

  /** A callback with the list of missing documents, if there are any. */
  predicate TellsMissing(c: seq<Effect>, missingIds: seq<PyStr>) {
    && |c| == (if missingIds == [] then 0 else 1)
    && (missingIds != [] ==>
          && c[0].Meta? && c[0].ids.Arr? && |c[0].ids.items| == |missingIds|
          && forall i :: 0 <= i < |missingIds| ==> c[0].ids.items[i] == Str(Utf16(missingIds[i])))
  }

  /** One token callback for each token, in order. */
  predicate TellsTokens(c: seq<Effect>, tokens: seq<PyStr>) {
    |c| == |tokens| && forall i :: 0 <= i < |c| ==> c[i] == StreamClient.Token(Str(Utf16(tokens[i])))
  }

  predicate TellsOthers(c: seq<Effect>) {
    forall e :: e in c ==> !e.Token? && !e.Meta?
  }

  /** The callbacks are the missing documents, if there are any, the tokens one by one, and then others. */
  lemma TokensReachTheClient(s: SseServer.Stream, rounds: seq<StreamClient.Read>, tokens: seq<PyStr>,
                             last: SseServer.Pull)
    requires StreamClient.Received(rounds) == SseServer.Sent(SseServer.Yielded(s))
    requires s.cut == None && SseServer.Gives(s, tokens, last)
    ensures var c := Callbacks(rounds);
            var first := if s.missingIds == [] then 0 else 1;
            && first + |tokens| <= |c|
            && TellsMissing(c[..first], s.missingIds)
            && TellsTokens(c[first..first + |tokens|], tokens)
            && TellsOthers(c[first + |tokens|..])
  {
    hide SseServer.Yielded, SseServer.Sent, SseServer.Gives, StreamClient.Received, StreamClient.ReadFailed, Callbacks;
    hide Expected, SseServer.Prologue, SseServer.Closing, Utf16, TellsMissing, TellsTokens, TellsOthers;
    ClientSeesTheRun(s, rounds);
    SseServer.WholeRun(s, tokens, last);
    ExpectedParts(SseServer.Prologue(s), SseServer.TokenFrames(tokens), SseServer.Closing(s));
    ExpectedFront(s);
    ExpectedTokens(tokens);
    ExpectedEnd(s);
    var a, b := Expected(SseServer.Prologue(s)), Expected(SseServer.TokenFrames(tokens));
    var d := Expected(SseServer.Closing(s));
    Assembled(a, b, d, Callbacks(rounds), s.missingIds, tokens);
  }

  lemma Assembled(a: seq<Effect>, b: seq<Effect>, d: seq<Effect>, c: seq<Effect>, missingIds: seq<PyStr>,
                  tokens: seq<PyStr>)
    requires TellsMissing(a, missingIds) && TellsTokens(b, tokens) && TellsOthers(d)
    requires |a| == (if missingIds == [] then 0 else 1) && |b| == |tokens|
    requires c == a + b + d + [] || c == a + b + d + [READ_ERROR]
    ensures |a| + |b| <= |c| && TellsMissing(c[..|a|], missingIds)
    ensures TellsTokens(c[|a|..|a| + |b|], tokens) && TellsOthers(c[|a| + |b|..])
  {
    hide TellsMissing, TellsTokens, TellsOthers;
    var tail := if c == a + b + d + [] then [] else [READ_ERROR];
    Sections(a, b, d, tail);
    OthersMore(d, tail);
  }

  lemma OthersMore(d: seq<Effect>, tail: seq<Effect>)
    requires TellsOthers(d) && (tail == [] || tail == [READ_ERROR])
    ensures TellsOthers(d + tail)
  {
  }

  lemma Sections(a: seq<Effect>, b: seq<Effect>, d: seq<Effect>, tail: seq<Effect>)
    ensures var c := a + b + d + tail;
            c[..|a|] == a && c[|a|..|a| + |b|] == b && c[|a| + |b|..] == d + tail
  {
  }

  lemma {:induction false} ExpectedAppend(a: seq<Frame>, b: seq<Frame>)
    ensures Expected(a + b) == Expected(a) + Expected(b)
  {
    if a == [] {
      assert a + b == b;
    } else {
      hide Meaning;
      assert (a + b)[1..] == a[1..] + b;
      ExpectedAppend(a[1..], b);
    }
  }

  lemma ExpectedParts(a: seq<Frame>, b: seq<Frame>, c: seq<Frame>)
    ensures Expected(a + b + c) == Expected(a) + Expected(b) + Expected(c)
  {
    ExpectedAppend(a + b, c);
    ExpectedAppend(a, b);
  }

  lemma ExpectedFront(s: SseServer.Stream)
    ensures TellsMissing(Expected(SseServer.Prologue(s)), s.missingIds)
    ensures |Expected(SseServer.Prologue(s))| == if s.missingIds == [] then 0 else 1
  {
    var frames := SseServer.Prologue(s);
    if s.missingIds != [] {
      assert frames[1..] == [];
      assert Expected(frames) == EffectOf(Meaning(frames[0])) + Expected([]);
      hide Utf16;
    }
  }

  lemma {:induction false} ExpectedTokens(tokens: seq<PyStr>)
    ensures TellsTokens(Expected(SseServer.TokenFrames(tokens)), tokens)
    ensures |Expected(SseServer.TokenFrames(tokens))| == |tokens|
  {
    if tokens != [] {
      ExpectedTokens(tokens[1..]);
      assert SseServer.TokenFrames(tokens)[1..] == SseServer.TokenFrames(tokens[1..]);
    }
  }

  lemma ExpectedEnd(s: SseServer.Stream)
    ensures TellsOthers(Expected(SseServer.Closing(s)))
  {
    var frames := SseServer.Closing(s);
    SseServer.FramesOfTheEnd(s);
    hide SseServer.Closing, SseServer.Ending, Expected;
    forall e | e in Expected(frames) ensures !e.Token? && !e.Meta? {
      ExpectedHas(frames, e);
    }
  }
}
