/** The reader of the answer stream: frames cut out of a carried-over buffer, each dispatched to a callback. */
module StreamClient {
  import opened Text
  import opened Wrappers
  import opened TextDecoding
  import opened Json

  /** What the reader does for a frame: an onEvent call, or the redirect to the login page.
      An error without a message gets its text from the client's table of messages. */
  datatype Effect =
    | Token(content: Value)
    | Done
    | Error(code: Value, message: Option<Value>)
    | Meta(ids: Value)
    | Fallback
    | LoginRedirect

  datatype Outcome = Skip | Emit(effect: Effect) | Finish(effect: Effect)

  const EVENT_PREFIX := Ascii("event: ")
  const DATA_PREFIX := Ascii("data: ")
  const MESSAGE := Ascii("message")
  const META := Ascii("meta")
  const DONE_MARK := Ascii("[DONE]")
  const TYPE := Ascii("type")
  const TOKEN := Ascii("token")
  const CONTENT := Ascii("content")
  const FALLBACK := Ascii("fallback")
  const SOURCES := Ascii("sources")
  const ERROR := Ascii("error")
  const MISSING_IDS := Ascii("missing_document_ids")
  const TO_STRING := Ascii("toString")
  const UNKNOWN := Ascii("UNKNOWN")
  const STREAM_ERROR := Ascii("STREAM_ERROR")
  const TOKEN_EXPIRED := Ascii("TOKEN_EXPIRED")
  const INVALID_TOKEN := Ascii("INVALID_TOKEN")

  // ---------------------------------------------------------------- String.split and String.trim

  /** Index of the first frame delimiter, or |b|. */
  function FindDelimiter(b: Str): (i: nat)
    ensures i <= |b|
    ensures i < |b| ==> i + 2 <= |b| && b[i..i + 2] == DELIMITER
  {
    if |b| < 2 then |b|
    else if b[0] == NEWLINE && b[1] == NEWLINE then
      assert b[0..2] == [b[0], b[1]];
      0
    else
      var i := FindDelimiter(b[1..]);
      assert i < |b| - 1 ==> b[1..][i..i + 2] == b[i + 1..i + 3];
      i + 1
  }

  /** b.split('\n\n') as its complete frames and the last, incomplete one. */
  function Split(b: Str): (seq<Str>, Str)
    decreases |b|
  {
    var i := FindDelimiter(b);
    if i == |b| then ([], b)
    else
      var (frames, rest) := Split(b[i + 2..]);
      ([b[..i]] + frames, rest)
  }

  function LineEnd(t: Str): (i: nat)
    ensures i <= |t|
    ensures i < |t| ==> t[i] == NEWLINE
    ensures forall j :: 0 <= j < i ==> t[j] != NEWLINE
  {
    if t == [] || t[0] == NEWLINE then 0 else 1 + LineEnd(t[1..])
  }

  /** t.split('\n') */
  function Lines(t: Str): seq<Str>
    decreases |t|
  {
    var i := LineEnd(t);
    if i == |t| then [t] else [t[..i]] + Lines(t[i + 1..])
  }

  predicate IsBlank(u: Unit) {
    || 9 <= u <= 13 || u == 32 || u == 0xA0 || u == 0x1680 || 0x2000 <= u <= 0x200A
    || u == 0x2028 || u == 0x2029 || u == 0x202F || u == 0x205F || u == 0x3000 || u == 0xFEFF
  }

  function Trim(t: Str): Str
    decreases |t|
  {
    if t != [] && IsBlank(t[0]) then Trim(t[1..])
    else if t != [] && IsBlank(t[|t| - 1]) then Trim(t[..|t| - 1])
    else t
  }

  // ---------------------------------------------------------------- one frame

  /** The two variables after reading the lines of a frame. */
  function ScanLines(lines: seq<Str>, dataStr: Str, eventName: Str): (Str, Str) {
    if lines == [] then (dataStr, eventName)
    else if EVENT_PREFIX <= lines[0] then ScanLines(lines[1..], dataStr, Trim(lines[0][7..]))
    else if DATA_PREFIX <= lines[0] then ScanLines(lines[1..], lines[0][6..], eventName)
    else ScanLines(lines[1..], dataStr, eventName)
  }

  /** parsed[key]: the last member of that name, None for undefined. */
  function Property(v: Value, key: Str): Option<Value> {
    if v.Obj? then Member(v.fields, key) else None
  }

  function Member(fields: seq<(Str, Value)>, key: Str): Option<Value> {
    if fields == [] then None
    else if fields[|fields| - 1].0 == key then Some(fields[|fields| - 1].1)
    else Member(fields[..|fields| - 1], key)
  }

  predicate ZeroLexeme(lexeme: Str) {
    lexeme == [] || lexeme[0] == 101 || lexeme[0] == 69 || (!(49 <= lexeme[0] <= 57) && ZeroLexeme(lexeme[1..]))
  }

  predicate Falsy(v: Option<Value>) {
    match v
    case None => true
    case Some(Null) => true
    case Some(Bool(b)) => !b
    case Some(Num(n)) => ZeroLexeme(n)
    case Some(Str(s)) => s == []
    case Some(_) => false
  }

  /** v || other */
  function OrElse(v: Option<Value>, other: Value): Value {
    if Falsy(v) then other else v.value
  }

  /** v ?? other, None when the result is left to the table of messages. */
  function NonNull(v: Option<Value>): Option<Value> {
    if v == Some(Null) then None else v
  }

  /** Looking the code up in the table of messages throws: an object that shadows toString, which no parsed
      value can be called as, has no conversion to a property key, nor has an array holding one. */
  predicate NoPropertyKey(code: Value) {
    match code
    case Obj(fields) => Member(fields, TO_STRING).Some?
    case Arr(items) => exists i :: 0 <= i < |items| && NoPropertyKey(items[i])
    case _ => false
  }

  function HandleJson(parsed: Option<Value>): Outcome {
    match parsed
    case None => Finish(Error(Str(STREAM_ERROR), None))
    case Some(v) =>
      var kind := Property(v, TYPE);
      if kind == Some(Str(TOKEN)) then Emit(Token(OrElse(Property(v, CONTENT), Str([]))))
      else if kind == Some(Str(FALLBACK)) then Emit(Fallback)
      else if kind == Some(Str(SOURCES)) then Skip
      else
        var named := NonNull(Property(v, ERROR));
        var code := if named.None? then Str(UNKNOWN) else named.value;
        if code == Str(TOKEN_EXPIRED) || code == Str(INVALID_TOKEN) then Finish(LoginRedirect)
        else
          var message := NonNull(Property(v, MESSAGE));
          if message == None && NoPropertyKey(code) then Finish(Error(Str(STREAM_ERROR), None))
          else Finish(Error(code, message))
  }

  function Handle(dataStr: Str, eventName: Str): Outcome {
    if dataStr == [] then Skip
    else if eventName == META then
      match Parse(dataStr)
      case None => Skip
      case Some(Null) => Skip
      case Some(v) => Emit(Meta(OrElse(Property(v, MISSING_IDS), Arr([]))))
    else if dataStr == DONE_MARK then Finish(Done)
    else if dataStr[0] == LBRACE then HandleJson(Parse(dataStr))
    else Emit(Token(Str(dataStr)))
  }

  function HandleFrame(frame: Str): Outcome {
    var (dataStr, eventName) := ScanLines(Lines(frame), [], MESSAGE);
    Handle(dataStr, eventName)
  }

  // ---------------------------------------------------------------- the whole input at once

  datatype Consumed = Consumed(effects: seq<Effect>, finished: bool)

  /** The outcomes in order, up to and with the first that ends the stream. */
  function Consume(outcomes: seq<Outcome>): Consumed {
    if outcomes == [] then Consumed([], false)
    else
      match outcomes[0]
      case Skip => Consume(outcomes[1..])
      case Finish(e) => Consumed([e], true)
      case Emit(e) =>
        var c := Consume(outcomes[1..]);
        Consumed([e] + c.effects, c.finished)
  }

  function Outcomes(frames: seq<Str>): (r: seq<Outcome>)
    ensures |r| == |frames|
    ensures forall i :: 0 <= i < |r| ==> r[i] == HandleFrame(frames[i])
  {
    seq(|frames|, i requires 0 <= i < |frames| => HandleFrame(frames[i]))
  }

  function ConsumeText(t: Str): Consumed {
    Consume(Outcomes(Split(t).0))
  }

  /** One round of the read loop: bytes, end of stream, the signal found aborted, or read() rejecting. */
  datatype Read = Chunk(bytes: seq<Byte>) | Eof | Aborted | Rejected(byAbort: bool)

  function LeadingChunks(rounds: seq<Read>): (n: nat)
    ensures n <= |rounds|
    ensures forall i :: 0 <= i < n ==> rounds[i].Chunk?
    ensures n < |rounds| ==> !rounds[n].Chunk?
  {
    if rounds == [] || !rounds[0].Chunk? then 0 else 1 + LeadingChunks(rounds[1..])
  }

  function Bytes(chunks: seq<Read>): seq<Byte>
    requires forall i :: 0 <= i < |chunks| ==> chunks[i].Chunk?
  {
    if chunks == [] then [] else Bytes(chunks[..|chunks| - 1]) + chunks[|chunks| - 1].bytes
  }

  /** Everything that arrived before the read loop stopped. */
  function Received(rounds: seq<Read>): seq<Byte> {
    Bytes(rounds[..LeadingChunks(rounds)])
  }

  predicate ReadFailed(rounds: seq<Read>) {
    var n := LeadingChunks(rounds);
    n < |rounds| && rounds[n] == Rejected(false)
  }

  /** The effects of a run, read off the received bytes as a whole. */
  function Effects(received: seq<Byte>, readFailed: bool): seq<Effect> {
    var c := ConsumeText(Decode(FRESH, received).1);
    c.effects + (if readFailed && !c.finished then [Error(Str(STREAM_ERROR), None)] else [])
  }

  // ---------------------------------------------------------------- the incremental reader

  predicate LastWith(prefix: Str, lines: seq<Str>, i: int) {
    0 <= i < |lines| && prefix <= lines[i] && forall j :: i < j < |lines| ==> !(prefix <= lines[j])
  }

  predicate NoneWith(prefix: Str, lines: seq<Str>) {
    forall j :: 0 <= j < |lines| ==> !(prefix <= lines[j])
  }

  /** Only the last data line and the last event name of a frame count. */
  ghost predicate LastFields(lines: seq<Str>, dataStr: Str, eventName: Str, noData: Str, noEvent: Str) {
    && (NoneWith(Ascii("data: "), lines) ==> dataStr == noData)
    && (NoneWith(Ascii("event: "), lines) ==> eventName == noEvent)
    && (forall i :: LastWith(Ascii("data: "), lines, i) ==> dataStr == lines[i][6..])
    && (forall i :: LastWith(Ascii("event: "), lines, i) ==> eventName == Trim(lines[i][7..]))
  }

  lemma Tail(prefix: Str, lines: seq<Str>)
    requires lines != []
    ensures var rest := lines[1..];
            && (NoneWith(prefix, lines) ==> !(prefix <= lines[0]) && NoneWith(prefix, rest))
            && (forall i :: LastWith(prefix, lines, i) ==>
                  if i == 0 then prefix <= lines[0] && NoneWith(prefix, rest)
                  else LastWith(prefix, rest, i - 1) && rest[i - 1] == lines[i])
  {
    var rest := lines[1..];
    assert forall i :: 0 <= i < |rest| ==> rest[i] == lines[i + 1];
  }

  lemma {:induction false} ScanKeepsLast(lines: seq<Str>, noData: Str, noEvent: Str)
    ensures var (dataStr, eventName) := ScanLines(lines, noData, noEvent);
            LastFields(lines, dataStr, eventName, noData, noEvent)
  {
    if lines != [] {
      assert EVENT_PREFIX[0] == 101 && DATA_PREFIX[0] == 100;
      ScanKeepsLast(lines[1..], if DATA_PREFIX <= lines[0] then lines[0][6..] else noData,
                    if EVENT_PREFIX <= lines[0] then Trim(lines[0][7..]) else noEvent);
      Tail(DATA_PREFIX, lines);
      Tail(EVENT_PREFIX, lines);
    }
    hide Trim, NoneWith;
  }

  method ReadFields(frame: Str) returns (dataStr: Str, eventName: Str)
    ensures (dataStr, eventName) == ScanLines(Lines(frame), [], MESSAGE)
    ensures LastFields(Lines(frame), dataStr, eventName, [], Ascii("message"))
  {
    ScanKeepsLast(Lines(frame), [], MESSAGE);
    hide LastFields;
    dataStr, eventName := [], MESSAGE;
    var lines := Lines(frame);
    for i := 0 to |lines|
      invariant ScanLines(lines[i..], dataStr, eventName) == ScanLines(lines, [], MESSAGE)
    {
      var line := lines[i];
      assert lines[i..][1..] == lines[i + 1..];
      if EVENT_PREFIX <= line {
        eventName := Trim(line[7..]);
      } else if DATA_PREFIX <= line {
        dataStr := line[6..];
      }
    }
  }

  method HandleOne(frame: Str) returns (outcome: Outcome)
    ensures outcome == HandleFrame(frame)
  {
    var dataStr, eventName := ReadFields(frame);
    outcome := Handle(dataStr, eventName);
  }

  /** The callbacks for frames that are complete, stopping at a terminal one. */
  method Dispatch(frames: seq<Str>) returns (effects: seq<Effect>, finished: bool)
    ensures Consumed(effects, finished) == Consume(Outcomes(frames))
  {
    hide HandleFrame;
    effects, finished := [], false;
    ghost var all := Outcomes(frames);
    for i := 0 to |frames|
      invariant !finished && Consume(all[..i]) == Consumed(effects, false)
    {
      var outcome := HandleOne(frames[i]);
      ConsumeSnoc(all[..i], outcome);
      assert all[..i + 1] == all[..i] + [outcome];
      match outcome
      case Skip =>
      case Emit(e) => effects := effects + [e];
      case Finish(e) =>
        effects, finished := effects + [e], true;
        assert all == all[..i + 1] + all[i + 1..];
        ConsumeAppend(all[..i + 1], all[i + 1..]);
        return;
    }
    assert all[..|frames|] == all;
  }

  /** However the bytes are cut into chunks, the effects are those of the received bytes as a whole. */
  method StreamAnswer(rounds: seq<Read>) returns (effects: seq<Effect>)
    ensures effects == Effects(Received(rounds), ReadFailed(rounds))
  {
    effects := [];
    var buffer: Str, decoder := [], FRESH;
    ghost var text: Str := [];
    var k := 0;
    assert rounds[..0] == [];
    while k < |rounds|
      invariant k <= LeadingChunks(rounds)
      invariant (decoder, text) == Decode(FRESH, Bytes(rounds[..k]))
      invariant buffer == Split(text).1
      invariant ConsumeText(text) == Consumed(effects, false)
    {
      var read := rounds[k];
      if read == Aborted || read == Eof || read == Rejected(true) {
        return;
      }
      if read == Rejected(false) {
        effects := effects + [Error(Str(STREAM_ERROR), None)];
        return;
      }
      ghost var before := text;
      var (decoder', more) := Decode(decoder, read.bytes);
      ReadMore(rounds, k, more);
      text := text + more;
      decoder := decoder';
      var (frames, rest) := Split(buffer + more);
      buffer := rest;
      var es, finished := Dispatch(frames);
      ConsumeMore(before, more);
      effects := effects + es;
      k := k + 1;
      if finished {
        LaterChunks(rounds, k);
        return;
      }
    }
  }

  lemma ReadMore(rounds: seq<Read>, k: nat, more: Str)
    requires k < LeadingChunks(rounds)
    requires more == Decode(Decode(FRESH, Bytes(rounds[..k])).0, rounds[k].bytes).1
    ensures var (d, text) := Decode(FRESH, Bytes(rounds[..k]));
            Decode(FRESH, Bytes(rounds[..k + 1])) == (Decode(d, rounds[k].bytes).0, text + more)
  {
    assert rounds[..k + 1][..k] == rounds[..k];
    DecodeAppend(FRESH, Bytes(rounds[..k]), rounds[k].bytes);
  }

  lemma ConsumeMore(a: Str, c: Str)
    requires !ConsumeText(a).finished
    ensures var (frames, rest) := Split(Split(a).1 + c);
            && Split(a + c).1 == rest
            && ConsumeText(a + c) == Consumed(ConsumeText(a).effects + Consume(Outcomes(frames)).effects,
                                              Consume(Outcomes(frames)).finished)
  {
    SplitAppend(a, c);
    OutcomesAppend(Split(a).0, Split(Split(a).1 + c).0);
    ConsumeAppend(Outcomes(Split(a).0), Outcomes(Split(Split(a).1 + c).0));
  }

  // ---------------------------------------------------------------- facts about splitting

  lemma {:induction false} FindDelimiterAppend(a: Str, c: Str)
    requires FindDelimiter(a) < |a|
    ensures FindDelimiter(a + c) == FindDelimiter(a)
  {
    if !(a[0] == NEWLINE && a[1] == NEWLINE) {
      assert (a + c)[1..] == a[1..] + c;
      FindDelimiterAppend(a[1..], c);
    }
  }

  lemma SplitNone(t: Str)
    requires FindDelimiter(t) == |t|
    ensures Split(t) == ([], t)
  {
  }

  /** A delimiter at i makes the first cut there. */
  lemma SplitAt(t: Str, i: nat, frames: seq<Str>, rest: Str)
    requires i == FindDelimiter(t) < |t|
    requires Split(t[i + 2..]) == (frames, rest)
    ensures Split(t) == ([t[..i]] + frames, rest)
  {
  }

  lemma {:induction false} SplitAppend(a: Str, c: Str)
    ensures var (frames, rest) := Split(a);
            var (more, last) := Split(rest + c);
            Split(a + c) == (frames + more, last)
    decreases |a|
  {
    hide FindDelimiter, Split;
    var i := FindDelimiter(a);
    if i < |a| {
      var (frames, rest) := Split(a[i + 2..]);
      var (more, last) := Split(rest + c);
      FindDelimiterAppend(a, c);
      assert (a + c)[i + 2..] == a[i + 2..] + c && (a + c)[..i] == a[..i];
      SplitAppend(a[i + 2..], c);
      SplitAt(a, i, frames, rest);
      SplitAt(a + c, i, frames + more, last);
      assert [a[..i]] + (frames + more) == [a[..i]] + frames + more;
    } else {
      SplitNone(a);
      assert [] + Split(a + c).0 == Split(a + c).0;
    }
  }

  predicate HasDelimiter(t: Str) {
    exists i :: 0 <= i < |t| - 1 && t[i] == NEWLINE && t[i + 1] == NEWLINE
  }

  lemma {:induction false} FirstDelimiter(b: Str)
    ensures !HasDelimiter(b[..FindDelimiter(b)])
    ensures FindDelimiter(b) == |b| <==> !HasDelimiter(b)
  {
    if |b| >= 2 && !(b[0] == NEWLINE && b[1] == NEWLINE) {
      var i, t := FindDelimiter(b), b[..FindDelimiter(b)];
      FirstDelimiter(b[1..]);
      forall j | 0 <= j < |t| - 1 ensures !(t[j] == NEWLINE && t[j + 1] == NEWLINE) {
        if j > 0 {
          assert b[1..][..i - 1][j - 1] == t[j] && b[1..][..i - 1][j] == t[j + 1];
        }
      }
      if HasDelimiter(b) {
        var j :| 0 <= j < |b| - 1 && b[j] == NEWLINE && b[j + 1] == NEWLINE;
        assert b[1..][j - 1] == b[j] && b[1..][j] == b[j + 1];
      }
      if HasDelimiter(b[1..]) {
        var j :| 0 <= j < |b| - 2 && b[1..][j] == NEWLINE && b[1..][j + 1] == NEWLINE;
        assert b[j + 1] == NEWLINE && b[j + 2] == NEWLINE;
      }
    }
  }

  /** Frames joined again with the delimiter. */
  function Join(frames: seq<Str>, rest: Str): Str {
    if frames == [] then rest else frames[0] + DELIMITER + Join(frames[1..], rest)
  }

  /** Splitting loses nothing, and neither a frame nor the carried-over buffer holds a delimiter. */
  lemma {:induction false} SplitJoins(b: Str)
    ensures var (frames, rest) := Split(b);
            && Join(frames, rest) == b
            && !HasDelimiter(rest)
            && forall i :: 0 <= i < |frames| ==> !HasDelimiter(frames[i])
    decreases |b|
  {
    FirstDelimiter(b);
    var i := FindDelimiter(b);
    if i < |b| {
      SplitJoins(b[i + 2..]);
      assert b == b[..i] + b[i..i + 2] + b[i + 2..];
    }
  }

  /** A frame that survives joining: no delimiter inside, and no newline to merge with the one after it. */
  predicate FrameShaped(b: Str) {
    !HasDelimiter(b) && (b != [] ==> b[|b| - 1] != NEWLINE)
  }

  lemma {:induction false} FindAfter(b: Str, rest: Str)
    requires FrameShaped(b)
    ensures FindDelimiter(b + DELIMITER + rest) == |b|
  {
    var t := b + DELIMITER + rest;
    if b != [] {
      assert t[1..] == b[1..] + DELIMITER + rest;
      assert t[0] == b[0] && (|b| > 1 ==> t[1] == b[1]);
      forall i | 0 <= i < |b| - 2 ensures !(b[1..][i] == NEWLINE && b[1..][i + 1] == NEWLINE) {
        assert !(b[i + 1] == NEWLINE && b[i + 2] == NEWLINE);
      }
      FindAfter(b[1..], rest);
    }
  }

  /** Joining and splitting undo each other on such frames. */
  lemma {:induction false} SplitJoin(frames: seq<Str>)
    requires forall i :: 0 <= i < |frames| ==> FrameShaped(frames[i])
    ensures Split(Join(frames, [])) == (frames, [])
  {
    hide FindDelimiter, Split;
    if frames == [] {
      SplitNone([]);
    } else {
      var b, rest := frames[0], Join(frames[1..], []);
      var t := b + DELIMITER + rest;
      FindAfter(b, rest);
      assert t[..|b|] == b && t[|b| + 2..] == rest;
      SplitJoin(frames[1..]);
      SplitAt(t, |b|, frames[1..], []);
      assert [b] + frames[1..] == frames;
    }
  }

  // ---------------------------------------------------------------- facts about consuming

  lemma {:induction false} ConsumeAppend(a: seq<Outcome>, b: seq<Outcome>)
    ensures var c := Consume(a);
            Consume(a + b) == if c.finished then c
                              else Consumed(c.effects + Consume(b).effects, Consume(b).finished)
  {
    if a == [] {
      assert a + b == b;
    } else {
      assert (a + b)[1..] == a[1..] + b;
      ConsumeAppend(a[1..], b);
    }
  }

  lemma OutcomesAppend(a: seq<Str>, b: seq<Str>)
    ensures Outcomes(a + b) == Outcomes(a) + Outcomes(b)
  {
  }

  lemma ConsumeSnoc(a: seq<Outcome>, outcome: Outcome)
    requires !Consume(a).finished
    ensures var effects := Consume(a).effects;
            Consume(a + [outcome]) == match outcome
                                      case Skip => Consumed(effects, false)
                                      case Emit(e) => Consumed(effects + [e], false)
                                      case Finish(e) => Consumed(effects + [e], true)
  {
    ConsumeAppend(a, [outcome]);
    assert [outcome][1..] == [];
  }

  /** What arrives later only adds effects. */
  lemma ConsumeTextAppend(a: Str, c: Str)
    ensures ConsumeText(a).effects <= ConsumeText(a + c).effects
    ensures ConsumeText(a).finished ==> ConsumeText(a + c) == ConsumeText(a)
  {
    SplitAppend(a, c);
    OutcomesAppend(Split(a).0, Split(Split(a).1 + c).0);
    ConsumeAppend(Outcomes(Split(a).0), Outcomes(Split(Split(a).1 + c).0));
  }

  lemma {:induction false} BytesPrefix(rounds: seq<Read>, k: nat, n: nat)
    requires k <= n <= |rounds|
    requires forall i :: 0 <= i < n ==> rounds[i].Chunk?
    ensures Bytes(rounds[..k]) <= Bytes(rounds[..n])
    decreases n
  {
    if k < n {
      BytesPrefix(rounds, k, n - 1);
      assert rounds[..n][..n - 1] == rounds[..n - 1];
    }
  }

  /** Once a terminal frame was handled, chunks that were never read make no difference. */
  lemma LaterChunks(rounds: seq<Read>, k: nat)
    requires k <= LeadingChunks(rounds)
    requires ConsumeText(Decode(FRESH, Bytes(rounds[..k])).1).finished
    ensures Effects(Received(rounds), ReadFailed(rounds)) == ConsumeText(Decode(FRESH, Bytes(rounds[..k])).1).effects
  {
    hide HandleFrame;
    var n := LeadingChunks(rounds);
    BytesPrefix(rounds, k, n);
    var early, all := Bytes(rounds[..k]), Bytes(rounds[..n]);
    assert all == early + all[|early|..];
    DecodeAppend(FRESH, early, all[|early|..]);
    var (d, text) := Decode(FRESH, early);
    ConsumeTextAppend(text, Decode(d, all[|early|..]).1);
  }

  // ---------------------------------------------------------------- lines and fields

  function JoinLines(lines: seq<Str>): Str {
    if lines == [] then [] else if |lines| == 1 then lines[0] else lines[0] + [NEWLINE] + JoinLines(lines[1..])
  }

  lemma FirstLine(t: Str)
    ensures var i := LineEnd(t);
            && NEWLINE !in t[..i]
            && if i == |t| then Lines(t) == [t]
               else Lines(t) == [t[..i]] + Lines(t[i + 1..]) && t == t[..i] + [NEWLINE] + t[i + 1..]
  {
    hide LineEnd, Lines;
    LinesAre(t);
    if LineEnd(t) < |t| {
      CutOut(t, LineEnd(t));
    }
  }

  lemma CutOut(t: Str, i: nat)
    requires i < |t|
    ensures t == t[..i] + [t[i]] + t[i + 1..]
  {
  }

  lemma LinesAre(t: Str)
    ensures var i := LineEnd(t);
            Lines(t) == if i == |t| then [t] else [t[..i]] + Lines(t[i + 1..])
  {
    hide LineEnd;
  }

  lemma JoinFirst(first: Str, rest: seq<Str>)
    requires rest != []
    ensures JoinLines([first] + rest) == first + [NEWLINE] + JoinLines(rest)
  {
    assert ([first] + rest)[1..] == rest;
  }

  /** The lines of a frame lose nothing, and none holds a line break. */
  lemma {:induction false} LinesJoin(t: Str)
    ensures Lines(t) != [] && JoinLines(Lines(t)) == t
    ensures forall i :: 0 <= i < |Lines(t)| ==> NEWLINE !in Lines(t)[i]
    decreases |t|
  {
    hide LineEnd, Lines;
    var i := LineEnd(t);
    FirstLine(t);
    if i < |t| {
      LinesJoin(t[i + 1..]);
      JoinFirst(t[..i], Lines(t[i + 1..]));
      hide JoinLines;
    }
  }

  predicate Blank(t: Str) { forall i :: 0 <= i < |t| ==> IsBlank(t[i]) }

  /** White space and line terminators of ECMAScript, as trim() sees them. */
  lemma BlankUnits(u: Unit)
    ensures IsBlank(u) <==> u in {9, 10, 11, 12, 13, 32, 160, 5760, 8192, 8193, 8194, 8195, 8196, 8197, 8198, 8199,
                                  8200, 8201, 8202, 8232, 8233, 8239, 8287, 12288, 65279}
  {
  }

  lemma NoBlanks()
    ensures Blank([])
  {
  }

  lemma BlankMore(u: Unit, t: Str)
    requires IsBlank(u) && Blank(t)
    ensures Blank([u] + t) && Blank(t + [u])
  {
  }

  lemma TrimIs(t: Str)
    ensures Trim(t) == if t != [] && IsBlank(t[0]) then Trim(t[1..])
                       else if t != [] && IsBlank(t[|t| - 1]) then Trim(t[..|t| - 1])
                       else t
  {
    hide IsBlank;
  }

  /** Trimming takes away blanks at both ends, and all of them. */
  lemma {:induction false} TrimTakesBlanks(t: Str) returns (left: Str, right: Str)
    ensures t == left + Trim(t) + right && Blank(left) && Blank(right)
    ensures var r := Trim(t); r != [] ==> !IsBlank(r[0]) && !IsBlank(r[|r| - 1])
    decreases |t|
  {
    hide IsBlank, Blank, Trim;
    left, right := [], [];
    TrimIs(t);
    NoBlanks();
    if t != [] && IsBlank(t[0]) {
      left, right := TrimTakesBlanks(t[1..]);
      assert t == [t[0]] + t[1..];
      BlankMore(t[0], left);
      left := [t[0]] + left;
    } else if t != [] && IsBlank(t[|t| - 1]) {
      var n := |t| - 1;
      left, right := TrimTakesBlanks(t[..n]);
      assert t == t[..n] + [t[n]];
      BlankMore(t[n], right);
      right := right + [t[n]];
    }
  }

  // ---------------------------------------------------------------- what a frame is taken for

  /** The type of a payload that has one: "token", "fallback" or "sources". */
  function ContentType(d: Str): Option<Str> {
    if Parse(d).None? then None
    else
      match Property(Parse(d).value, Ascii("type"))
      case Some(Str(s)) => if s in {Ascii("token"), Ascii("fallback"), Ascii("sources")} then Some(s) else None
      case _ => None
  }

  /** Which frames end the stream, tell of a fallback, are shown as they are, or ask for a new login. */
  lemma TakenFor(d: Str, name: Str)
    requires d != [] && name != Ascii("meta")
    ensures Handle(d, name).Finish? <==> d == Ascii("[DONE]") || (d[0] == 123 && ContentType(d) == None)
    ensures Handle(d, name) == Finish(Done) <==> d == Ascii("[DONE]")
    ensures Handle(d, name) == Emit(Fallback) <==> d[0] == 123 && ContentType(d) == Some(Ascii("fallback"))
    ensures Handle(d, name) == Skip <==> d[0] == 123 && ContentType(d) == Some(Ascii("sources"))
    ensures d[0] != 123 && d != Ascii("[DONE]") ==> Handle(d, name) == Emit(Token(Str(d)))
    ensures d[0] == 123 && Parse(d) == None ==> Handle(d, name) == Finish(Error(Str(Ascii("STREAM_ERROR")), None))
    ensures d[0] == 123 && ContentType(d) == Some(Ascii("token")) ==>
              match Property(Parse(d).value, Ascii("content"))
              case Some(Str(text)) => Handle(d, name) == Emit(Token(Str(text)))
              case Some(Null) => Handle(d, name) == Emit(Token(Str([])))
              case None => Handle(d, name) == Emit(Token(Str([])))
              case Some(_) => Handle(d, name).Emit? && Handle(d, name).effect.Token?
    ensures d[0] == 123 && ContentType(d) == None && Parse(d).Some? ==>
              match (Property(Parse(d).value, Ascii("error")), Property(Parse(d).value, Ascii("message")))
              case (Some(Str(code)), Some(Str(message))) =>
                code in {Ascii("TOKEN_EXPIRED"), Ascii("INVALID_TOKEN")}
                || Handle(d, name) == Finish(Error(Str(code), Some(Str(message))))
              case (Some(Str(code)), None) =>
                code in {Ascii("TOKEN_EXPIRED"), Ascii("INVALID_TOKEN")}
                || Handle(d, name) == Finish(Error(Str(code), None))
              case (None, None) => Handle(d, name) == Finish(Error(Str(Ascii("UNKNOWN")), None))
              case (Some(Null), Some(Null)) => Handle(d, name) == Finish(Error(Str(Ascii("UNKNOWN")), None))
              case _ => true
    ensures Handle(d, name) == Finish(LoginRedirect) <==>
            && d[0] == 123 && ContentType(d) == None && Parse(d).Some?
            && Property(Parse(d).value, Ascii("error")) in
                 {Some(Str(Ascii("TOKEN_EXPIRED"))), Some(Str(Ascii("INVALID_TOKEN")))}
  {
    hide Parse, Property;
    assert DONE_MARK[0] == 91;
    assert TYPE == Ascii("type") && ERROR == Ascii("error") && CONTENT == Ascii("content");
    assert |UNKNOWN| == 7 && |TOKEN_EXPIRED| == 13 && |INVALID_TOKEN| == 13;
  }

  /** A meta frame never ends the stream, and one that cannot be read is passed over, as is a frame without
      data; otherwise its list is told of, an empty one when there is none. */
  lemma MetaOrEmpty(d: Str, name: Str)
    requires d == [] || name == Ascii("meta")
    ensures !Handle(d, name).Finish?
    ensures Handle(d, name) == Skip <==> d == [] || Parse(d) == None || Parse(d) == Some(Null)
    ensures d != [] && Parse(d).Some? && Parse(d) != Some(Null) ==>
              match Property(Parse(d).value, Ascii("missing_document_ids"))
              case Some(Arr(ids)) => Handle(d, name) == Emit(Meta(Arr(ids)))
              case Some(Null) => Handle(d, name) == Emit(Meta(Arr([])))
              case None => Handle(d, name) == Emit(Meta(Arr([])))
              case Some(_) => Handle(d, name).Emit? && Handle(d, name).effect.Meta?
  {
    hide Parse, Property;
    assert MISSING_IDS == Ascii("missing_document_ids");
  }

  lemma MemberAbsent(fields: seq<(Str, Value)>, key: Str)
    ensures Member(fields, key) == None <==> forall i :: 0 <= i < |fields| ==> fields[i].0 != key
  {
  }

  /** Of several members with one name the last counts. */
  lemma {:induction false} LastMember(fields: seq<(Str, Value)>, key: Str, i: nat)
    requires i < |fields| && fields[i].0 == key
    requires forall j :: i < j < |fields| ==> fields[j].0 != key
    ensures Member(fields, key) == Some(fields[i].1)
  {
    if i < |fields| - 1 {
      LastMember(fields[..|fields| - 1], key, i);
    }
  }

  // ---------------------------------------------------------------- how reading ends

  /** After n chunks without a terminal frame, the way reading stops decides: a read that fails for another
      reason than an abort adds one error; the end, an abort, or nothing more adds none. */
  lemma HowReadingEnds(rounds: seq<Read>, n: nat)
    requires n <= |rounds| && (forall i :: 0 <= i < n ==> rounds[i].Chunk?) && (n < |rounds| ==> !rounds[n].Chunk?)
    ensures Received(rounds) == Bytes(rounds[..n])
    ensures var c := ConsumeText(Decode(FRESH, Bytes(rounds[..n])).1);
            Effects(Received(rounds), ReadFailed(rounds))
              == if n < |rounds| && rounds[n] == Rejected(false) && !c.finished
                 then c.effects + [Error(Str(Ascii("STREAM_ERROR")), None)] else c.effects
  {
    var k := LeadingChunks(rounds);
    assert k == n;
    hide ConsumeText, Decode;
  }

  predicate AllChunks(rs: seq<Read>) { forall i :: 0 <= i < |rs| ==> rs[i].Chunk? }

  /** The received bytes are those of the chunks, in order. */
  lemma {:induction false} BytesAppend(a: seq<Read>, b: seq<Read>)
    requires AllChunks(a) && AllChunks(b)
    ensures AllChunks(a + b) && Bytes(a + b) == Bytes(a) + Bytes(b)
    ensures |b| == 1 ==> Bytes(b) == b[0].bytes
  {
    if b == [] {
      assert a + b == a;
    } else {
      var m := |b| - 1;
      BytesAppend(a, b[..m]);
      assert (a + b)[..|a + b| - 1] == a + b[..m] && (a + b)[|a + b| - 1] == b[m];
      assert Bytes(a + b) == Bytes(a + b[..m]) + b[m].bytes;
      assert Bytes(b) == Bytes(b[..m]) + b[m].bytes;
      assert m == 0 ==> Bytes(b[..m]) == [];
      hide Bytes;
    }
  }
}
