/** The chat on screen while an answer streams in: the state updates made for each callback. */
module ChatView {
  import opened Text
  import opened Wrappers
  import opened Json
  import StreamClient
  import SseServer
  import EndToEnd

  type Effect = StreamClient.Effect

  datatype Message = Message(id: int, content: Str, isFallback: bool)

  datatype Chat = Chat(id: int, messages: seq<Message>, missingIds: Value)

  datatype View = View(activeChat: Option<Chat>, isStreaming: bool)

  /** The updates before the request: a message for the question and an empty one to stream into. */
  function Begin(v: View, chatId: int, question: Message, answerId: int): View {
    View(if v.activeChat.Some? && v.activeChat.value.id == chatId then
           Some(v.activeChat.value.(messages := v.activeChat.value.messages + [question, Message(answerId, [], false)]))
         else v.activeChat,
         true)
  }

  function OnLast(v: View, chatId: int, answerId: int, update: Message -> Message): View {
    if v.activeChat.None? || v.activeChat.value.id != chatId then v
    else
      var messages := v.activeChat.value.messages;
      var n := |messages|;
      if n == 0 || messages[n - 1].id != answerId then v
      else v.(activeChat := Some(v.activeChat.value.(messages := messages[n - 1 := update(messages[n - 1])])))
  }

  /** asText is the conversion of the + operator for content that is not a string. */
  function React(v: View, e: Effect, chatId: int, answerId: int, asText: Value -> Str): View {
    match e
    case Meta(ids) =>
      if v.activeChat.None? || v.activeChat.value.id != chatId then v
      else v.(activeChat := Some(v.activeChat.value.(missingIds := ids)))
    case Token(content) =>
      var text := if content.Str? then content.s else asText(content);
      OnLast(v, chatId, answerId, (m: Message) => m.(content := m.content + text))
    case Fallback => OnLast(v, chatId, answerId, (m: Message) => m.(isFallback := true))
    case Done => v.(isStreaming := false)
    case Error(_, _) => v.(isStreaming := false)
    case LoginRedirect => v
  }

  function ReactAll(v: View, effects: seq<Effect>, chatId: int, answerId: int, asText: Value -> Str): View
    decreases effects
  {
    if effects == [] then v
    else ReactAll(React(v, effects[0], chatId, answerId, asText), effects[1..], chatId, answerId, asText)
  }

  predicate Ends(e: Effect) { e.Done? || e.Error? }

  predicate PlainTokens(effects: seq<Effect>) {
    forall i :: 0 <= i < |effects| && effects[i].Token? ==> effects[i].content.Str?
  }

  /** The answer on screen grows by exactly the streamed text, and only it and the list of missing documents
      change in the chat. */
  lemma {:induction false} StreamedInto(v: View, effects: seq<Effect>, answerId: int, asText: Value -> Str)
    requires v.activeChat.Some? && v.activeChat.value.messages != []
    requires var ms := v.activeChat.value.messages; ms[|ms| - 1].id == answerId
    requires PlainTokens(effects)
    ensures var chat := v.activeChat.value;
            var ms := chat.messages;
            var last := ms[|ms| - 1];
            var w := ReactAll(v, effects, chat.id, answerId, asText);
            && w.activeChat.Some? && w.activeChat.value.id == chat.id
            && w.activeChat.value.messages
                 == ms[..|ms| - 1] + [Message(answerId, last.content + EndToEnd.ShownText(effects),
                                              last.isFallback || StreamClient.Fallback in effects)]
            && (w.isStreaming <==> v.isStreaming && forall i :: 0 <= i < |effects| ==> !Ends(effects[i]))
    decreases effects
  {
    var chat := v.activeChat.value;
    var ms := chat.messages;
    var last := ms[|ms| - 1];
    if effects == [] {
      assert last.content + [] == last.content;
    } else {
      var e, rest := effects[0], effects[1..];
      var u := React(v, e, chat.id, answerId, asText);
      ReactOnce(v, e, answerId, asText);
      StreamedInto(u, rest, answerId, asText);
      assert effects == [e] + rest;
      var shown := if e.Token? then e.content.s else [];
      assert EndToEnd.ShownText(effects) == shown + EndToEnd.ShownText(rest);
      assert last.content + shown + EndToEnd.ShownText(rest) == last.content + (shown + EndToEnd.ShownText(rest));
      assert StreamClient.Fallback in effects <==> e == StreamClient.Fallback || StreamClient.Fallback in rest;
      assert (forall i :: 0 <= i < |effects| ==> !Ends(effects[i]))
        <==> !Ends(e) && forall i :: 0 <= i < |rest| ==> !Ends(rest[i]) by {
        assert forall i :: 0 <= i < |rest| ==> rest[i] == effects[i + 1];
        assert forall i :: 0 < i < |effects| ==> effects[i] == rest[i - 1];
      }
      var ums := u.activeChat.value.messages;
      assert ums[..|ums| - 1] == ms[..|ms| - 1];
    }
  }

  lemma ReactOnce(v: View, e: Effect, answerId: int, asText: Value -> Str)
    requires v.activeChat.Some? && v.activeChat.value.messages != []
    requires var ms := v.activeChat.value.messages; ms[|ms| - 1].id == answerId
    requires e.Token? ==> e.content.Str?
    ensures var chat := v.activeChat.value;
            var ms := chat.messages;
            var last := ms[|ms| - 1];
            var w := React(v, e, chat.id, answerId, asText);
            && w.activeChat.Some? && w.activeChat.value.id == chat.id
            && w.activeChat.value.messages
                 == ms[..|ms| - 1] + [Message(answerId, last.content + (if e.Token? then e.content.s else []),
                                              last.isFallback || e == StreamClient.Fallback)]
            && (w.isStreaming <==> v.isStreaming && !Ends(e))
  {
    var ms := v.activeChat.value.messages;
    assert ms == ms[..|ms| - 1] + [ms[|ms| - 1]];
    assert ms[|ms| - 1].content + [] == ms[|ms| - 1].content;
  }

  /** The list of missing documents is that of the last meta event; without one it stays. */
  lemma {:induction false} MissingIdsAfter(v: View, effects: seq<Effect>, answerId: int, asText: Value -> Str, k: nat)
    requires v.activeChat.Some?
    requires k <= |effects| && forall i :: k <= i < |effects| ==> !effects[i].Meta?
    ensures var chat := v.activeChat.value;
            var w := ReactAll(v, effects, chat.id, answerId, asText);
            && w.activeChat.Some? && w.activeChat.value.id == chat.id
            && (k == 0 ==> w.activeChat.value.missingIds == chat.missingIds)
            && (k > 0 && effects[k - 1].Meta? ==> w.activeChat.value.missingIds == effects[k - 1].ids)
    decreases effects
  {
    if effects != [] {
      var id := v.activeChat.value.id;
      var u := React(v, effects[0], id, answerId, asText);
      MissingIdsAfter(u, effects[1..], answerId, asText, if k == 0 then 0 else k - 1);
    }
  }

  /** Events of one chat leave any other chat alone, and a chat that ends in another message its messages. */
  lemma {:induction false} OthersUntouched(v: View, effects: seq<Effect>, chatId: int, answerId: int,
                                           asText: Value -> Str)
    ensures var w := ReactAll(v, effects, chatId, answerId, asText);
            && (v.activeChat.None? || v.activeChat.value.id != chatId ==> w.activeChat == v.activeChat)
            && (v.activeChat.Some? && (v.activeChat.value.messages == []
                                       || v.activeChat.value.messages[|v.activeChat.value.messages| - 1].id != answerId)
                ==> w.activeChat.Some? && w.activeChat.value.messages == v.activeChat.value.messages)
            && (w.isStreaming <==>
                  v.isStreaming && forall i :: 0 <= i < |effects| ==> !effects[i].Done? && !effects[i].Error?)
    decreases effects
  {
    if effects != [] {
      OthersUntouched(React(v, effects[0], chatId, answerId, asText), effects[1..], chatId, answerId, asText);
      assert effects == [effects[0]] + effects[1..];
    }
  }

  lemma {:induction false} ServerTokensArePlain(frames: seq<SseServer.Frame>)
    ensures PlainTokens(EndToEnd.Expected(frames))
  {
    if frames != [] {
      ServerTokensArePlain(frames[1..]);
    }
  }

  lemma StreamedFromBegin(v: View, effects: seq<Effect>, question: Message, answerId: int, asText: Value -> Str)
    requires v.activeChat.Some? && PlainTokens(effects)
    ensures var chat := v.activeChat.value;
            var w := ReactAll(Begin(v, chat.id, question, answerId), effects, chat.id, answerId, asText);
            && w.activeChat.Some?
            && w.activeChat.value.messages
                 == chat.messages
                    + [question, Message(answerId, EndToEnd.ShownText(effects), StreamClient.Fallback in effects)]
            && (w.isStreaming <==> forall i :: 0 <= i < |effects| ==> !Ends(effects[i]))
  {
    hide EndToEnd.ShownText, ReactAll;
    var chat := v.activeChat.value;
    var begun := Begin(v, chat.id, question, answerId);
    var ms := begun.activeChat.value.messages;
    StreamedInto(begun, effects, answerId, asText);
    assert ms[..|ms| - 1] == chat.messages + [question];
    assert [] + EndToEnd.ShownText(effects) == EndToEnd.ShownText(effects);
  }

  /** From the model's tokens to the screen: after a stream that arrived whole, and before the chat is loaded
      again, the new message shows the text the server saved, and streaming is over exactly when a terminal
      effect other than the login redirect came. */
  lemma ScreenShowsTheSavedText(s: SseServer.Stream, rounds: seq<StreamClient.Read>, v: View, question: Message,
                                answerId: int, asText: Value -> Str)
    requires StreamClient.Received(rounds) == SseServer.Sent(SseServer.Yielded(s))
    requires v.activeChat.Some?
    ensures var chat := v.activeChat.value;
            var effects := EndToEnd.Callbacks(rounds);
            var w := ReactAll(Begin(v, chat.id, question, answerId), effects, chat.id, answerId, asText);
            && w.activeChat.Some?
            && w.activeChat.value.messages
                 == chat.messages
                    + [question, Message(answerId, Utf16(EndToEnd.SavedText(s)), StreamClient.Fallback in effects)]
            && (w.isStreaming <==> forall i :: 0 <= i < |effects| ==> !Ends(effects[i]))
  {
    hide SseServer.Yielded, SseServer.Sent, StreamClient.Received, EndToEnd.Callbacks, ReactAll, Begin;
    EndToEnd.ClientSeesTheRun(s, rounds);
    ServerTokensArePlain(SseServer.Yielded(s));
    StreamedFromBegin(v, EndToEnd.Callbacks(rounds), question, answerId, asText);
  }

  // ---------------------------------------------------------------- the reload after a done event

  /** loadChat: the chat as the server has it becomes the active one. */
  function Reload(v: View, fetched: Chat): View {
    v.(activeChat := Some(fetched))
  }

  /** The chat as the server has it once the question is stored. The answer is stored after the generator's
      last yield, so the chat may be read before that or after. No stored message carries the fallback mark. */
  function Fetched(chatId: int, stored: seq<Message>, question: Message, s: SseServer.Stream, savedId: int,
                   afterSave: bool, missingIds: Value): Chat
  {
    var saved := SseServer.Saved(s);
    var answer := if afterSave && saved.Some? then [Message(savedId, Utf16(saved.value.content), false)] else [];
    Chat(chatId, stored + [question] + answer, missingIds)
  }

  /** What the view shows after the question, which is message n. */
  function AnswerText(v: View, n: nat): Str {
    if v.activeChat.None? || |v.activeChat.value.messages| <= n + 1 then []
    else v.activeChat.value.messages[n + 1].content
  }

  function AnswerMarked(v: View, n: nat): bool {
    v.activeChat.Some? && |v.activeChat.value.messages| > n + 1 && v.activeChat.value.messages[n + 1].isFallback
  }

  /** The reload that a done event starts keeps the answer on screen if and only if the server has saved it by
      then or there is no text; the fallback mark is kept only if there was none. */
  lemma ReloadKeepsTheAnswer(s: SseServer.Stream, rounds: seq<StreamClient.Read>, v: View, question: Message,
                             answerId: int, asText: Value -> Str, stored: seq<Message>, savedId: int, afterSave: bool,
                             missingIds: Value)
    requires StreamClient.Received(rounds) == SseServer.Sent(SseServer.Yielded(s))
    requires v.activeChat.Some?
    ensures var chat := v.activeChat.value;
            var effects := EndToEnd.Callbacks(rounds);
            var before := ReactAll(Begin(v, chat.id, question, answerId), effects, chat.id, answerId, asText);
            var after := Reload(before, Fetched(chat.id, stored, question, s, savedId, afterSave, missingIds));
            && AnswerText(before, |chat.messages|) == Utf16(EndToEnd.SavedText(s))
            && (AnswerText(after, |stored|) == AnswerText(before, |chat.messages|)
                <==> afterSave || EndToEnd.SavedText(s) == [])
            && (AnswerMarked(after, |stored|) == AnswerMarked(before, |chat.messages|)
                <==> StreamClient.Fallback !in effects)
  {
    hide SseServer.Yielded, SseServer.Sent, SseServer.Saved, StreamClient.Received, EndToEnd.Callbacks, ReactAll, Begin;
    ScreenShowsTheSavedText(s, rounds, v, question, answerId, asText);
    SavedTextIsSaved(s);
  }

  lemma SavedTextIsSaved(s: SseServer.Stream)
    ensures var saved := SseServer.Saved(s);
            && (saved.Some? <==> EndToEnd.SavedText(s) != [])
            && (saved.Some? ==> saved.value.content == EndToEnd.SavedText(s))
            && (saved.Some? <==> Utf16(EndToEnd.SavedText(s)) != [])
  {
  }
}
