/**
 * The deterministic part of `DeepSeekChat`: the persona prompt chosen for a
 * chat mode, the bounded conversation context kept in a chat session, the
 * error reply, and the Markdown-to-HTML rewrite of the model's answer for
 * Telegram.  The HTTP call to the DeepSeek API and the database are not
 * modelled: the API's answer (or the exception it raised) and the outcome of
 * the database write are parameters.
 */
module DeepSeekChat {
  import opened Wrappers
  import opened Text

  // ---------------------------------------------------------------------
  // Chat modes and their system prompts
  // ---------------------------------------------------------------------

  datatype Mode = Psychologist | Coach | Friend

  /** The key a mode has in the prompt table and in the mode list. */
  function ModeId(m: Mode): string {
    match m
    case Psychologist => "psychologist"
    case Coach => "coach"
    case Friend => "friend"
  }

  /** Looking a mode name up in the prompt table's keys. */
  function ModeOf(id: string): (m: Option<Mode>)
    ensures m.Some? ==> ModeId(m.value) == id
  {
    if id == "psychologist" then Some(Psychologist)
    else if id == "coach" then Some(Coach)
    else if id == "friend" then Some(Friend)
    else None
  }

  /** Every mode is found again under its own key. */
  lemma ModeOfModeId(m: Mode)
    ensures ModeOf(ModeId(m)) == Some(m)
  {
    match m
    case Psychologist =>
    case Coach =>
      assert ModeId(m)[0] != "psychologist"[0];
    case Friend =>
      assert ModeId(m)[0] != "psychologist"[0];
      assert ModeId(m)[0] != "coach"[0];
  }

  /** The persona prompt of each mode. */
  function PromptText(m: Mode): string {
    match m
    case Psychologist =>
      "Ты - эмпатичный психолог-консультант MindMate. Твоя задача - оказывать психологическую поддержку, помогать разбираться в эмоциях и давать практические советы.\n\nПРАВИЛА:\n1. Будь поддерживающим, но профессиональным\n2. Не ставь диагнозы\n3. Не давай медицинских рекомендаций\n4. В кризисных ситуациях направляй к специалистам\n5. Используй техники КПТ, осознанности и эмоционального интеллекта\n6. Задавай уточняющие вопросы\n7. Говори на русском языке\n\nСТИЛЬ:\n- Дружелюбный, но не фамильярный\n- Используй эмодзи умеренно 😊\n- Говори на \"ты\"\n- Будь конкретным в советах\n\nЕсли пользователь упоминает суицидальные мысли, немедленно предоставь контакты экстренных служб."
    case Coach =>
      "Ты - лайф-коуч и ментор. Помогаешь ставить цели, преодолевать препятствия и развивать навыки.\n\nФокус на:\n- Постановке SMART-целей\n- Преодолении прокрастинации\n- Развитии привычек\n- Управлении временем\n- Личностном росте"
    case Friend =>
      "Ты - поддерживающий друг, который всегда готов выслушать. Не давай советов, если не просят. В основном слушай, сопереживай и задавашь вопросы.\n\nТвой девиз: \"Я здесь, чтобы слушать тебя.\""
  }

  /**
   * The mode whose prompt `system_prompts.get(mode, system_prompts["psychologist"])`
   * picks: the named mode when the name is a key, the psychologist otherwise.
   */
  function ResolveMode(id: string): (m: Mode)
    ensures ModeId(m) == id || (ModeOf(id) == None && m == Psychologist)
    ensures forall k: Mode :: ModeId(k) == id ==> m == k
  {
    match ModeOf(id)
    case Some(k) => k
    case None => Psychologist
  }

  /** The system prompt a new session of the named mode starts with. */
  function SystemPromptFor(mode: string): string {
    PromptText(ResolveMode(mode))
  }

  /** One entry of `get_available_modes`. */
  datatype ModeInfo = ModeInfo(id: string, name: string, description: string)

  function Describe(m: Mode): (info: ModeInfo)
    ensures info.id == ModeId(m)
  {
    match m
    case Psychologist =>
      ModeInfo("psychologist", "🧠 Психолог", "Профессиональная поддержка и консультация")
    case Coach =>
      ModeInfo("coach", "🎯 Коуч", "Помощь в постановке целей и развитии")
    case Friend =>
      ModeInfo("friend", "👥 Друг", "Просто поговорить и выговориться")
  }

  /**
   * The modes offered to the user: exactly the keys of the prompt table, each
   * once, psychologist first.
   */
  function AvailableModes(): (modes: seq<ModeInfo>)
    ensures |modes| == 3 && modes[0].id == "psychologist"
    ensures forall i :: 0 <= i < |modes| ==> ModeOf(modes[i].id).Some?
    ensures forall m: Mode :: exists i :: 0 <= i < |modes| && modes[i].id == ModeId(m)
    ensures forall i, j :: 0 <= i < j < |modes| ==> modes[i].id != modes[j].id
  {
    var modes := [Describe(Psychologist), Describe(Coach), Describe(Friend)];
    assert modes[0].id == ModeId(Psychologist) && modes[1].id == ModeId(Coach) && modes[2].id == ModeId(Friend);
    ModeOfModeId(Psychologist);
    ModeOfModeId(Coach);
    ModeOfModeId(Friend);
    assert forall m: Mode :: modes[if m.Psychologist? then 0 else if m.Coach? then 1 else 2].id == ModeId(m);
    modes
  }

  // ---------------------------------------------------------------------
  // The conversation context
  // ---------------------------------------------------------------------

  datatype Role = System | User | Assistant

  /** One `{"role": …, "content": …}` entry of the context. */
  datatype Message = Message(role: Role, content: string)

  /** Longest context sent to the API, and how many recent entries survive a cut. */
  const MaxContext: nat := 20
  const KeptRecent: nat := 19

  /**
   * The cut applied after the user's message is appended: a context longer
   * than twenty entries keeps its first entry (the system prompt) and its
   * nineteen most recent ones.
   */
  function Trim(context: seq<Message>): (r: seq<Message>)
    ensures |r| == if |context| <= MaxContext then |context| else MaxContext
    ensures context != [] ==> r[0] == context[0]
    ensures r != [] ==> r[1..] == context[|context| - (|r| - 1)..]
  {
    if |context| > MaxContext then [context[0]] + context[|context| - KeptRecent..]
    else context
  }

  /** The newest entry survives the cut. */
  lemma TrimKeepsLast(context: seq<Message>)
    requires context != []
    ensures Trim(context)[|Trim(context)| - 1] == context[|context| - 1]
  {
    var r := Trim(context);
    if |r| > 1 {
      assert r[|r| - 1] == r[1..][|r| - 2];
    }
  }

  /** A chat session row: the stored context and the running counters. */
  class ChatSession {
    const sessionId: string
    var context: seq<Message>
    var messageCount: nat
    var tokenCount: nat
    var active: bool

    /** A new session: active, no exchanges yet, the mode's prompt as its only entry. */
    constructor (sessionId: string, prompt: string)
      ensures this.sessionId == sessionId
      ensures context == [Message(System, prompt)]
      ensures messageCount == 0 && tokenCount == 0 && active
    {
      this.sessionId := sessionId;
      context := [Message(System, prompt)];
      messageCount := 0;
      tokenCount := 0;
      active := true;
    }
  }

  /**
   * `create_session`: `null` without an API key or when the database write
   * fails; otherwise a new active session whose context is exactly the
   * system message of the requested mode (psychologist for unknown modes).
   * The generated UUID is passed in.
   */
  method CreateSession(apiKey: string, mode: string, sessionId: string, storeFails: bool)
    returns (s: ChatSession?)
    ensures apiKey == [] || storeFails ==> s == null
    ensures apiKey != [] && !storeFails ==>
              s != null && fresh(s) && s.sessionId == sessionId && s.active &&
              s.context == [Message(System, SystemPromptFor(mode))] &&
              s.messageCount == 0 && s.tokenCount == 0
  {
    if apiKey == [] {
      return null;
    }
    var prompt := SystemPromptFor(mode);
    if storeFails {
      return null;
    }
    s := new ChatSession(sessionId, prompt);
  }

  // ---------------------------------------------------------------------
  // Replies
  // ---------------------------------------------------------------------

  /** What the DeepSeek call produced: an answer with its token usage, or an exception. */
  datatype ApiOutcome = Answered(text: string, totalTokens: nat) | Raised(message: string)

  /** The dictionary `send_message` returns; `Replied` is `success: True`. */
  datatype ChatResult =
    | Replied(sessionId: string, response: string, rawResponse: string, messageCount: nat)
    | Failed(error: string, response: string)

  const Warning := "\U{26A0}\U{FE0F} "
  const RetryHint := "\n\nПопробуйте позже или используйте другие функции бота."
  const NotConfigured := "DeepSeek API не настроен"
  const SessionMissing := "Сессия не найдена или завершена"
  const ErrorPrefix := "Ошибка: "

  /** `_error_response`: not a success, the message kept, and a warning shown to the user. */
  function ErrorResponse(message: string): (r: ChatResult)
    ensures r.Failed? && r.error == message
    ensures StartsWith(r.response, Warning + message) && EndsWith(r.response, RetryHint)
    ensures |r.response| == |Warning| + |message| + |RetryHint|
  {
    var response := Warning + message + RetryHint;
    assert response[..|Warning + message|] == Warning + message;
    Failed(message, response)
  }

  /**
   * `send_message`.  Without an API key, or when no active session is found,
   * nothing changes and an error comes back.  Otherwise the user's message is
   * appended, the context is cut to twenty entries, the API is asked, and on
   * an answer the assistant's reply is appended and the counters advance; an
   * exception from the API leaves the session as it was and is reported.
   */
  method SendMessage(apiKey: string, session: ChatSession?, userMessage: string, api: ApiOutcome)
    returns (r: ChatResult)
    modifies session
    ensures apiKey == [] ==> r == ErrorResponse(NotConfigured)
    ensures apiKey != [] && (session == null || !old(session.active)) ==>
              r == ErrorResponse(SessionMissing)
    ensures r.Failed? ==> session == null || unchanged(session)
    ensures apiKey != [] && session != null && old(session.active) && api.Raised? ==>
              r == ErrorResponse(ErrorPrefix + api.message)
    ensures apiKey != [] && session != null && old(session.active) && api.Answered? ==>
              session.context ==
                Trim(old(session.context) + [Message(User, userMessage)]) + [Message(Assistant, api.text)] &&
              session.messageCount == old(session.messageCount) + 1 &&
              session.tokenCount == old(session.tokenCount) + api.totalTokens &&
              session.active &&
              r == Replied(session.sessionId, FormatAsWritten(api.text), api.text, session.messageCount)
    ensures r.Replied? ==>
              |session.context| <= MaxContext + 1 &&
              session.context[|session.context| - 1] == Message(Assistant, api.text) &&
              session.context[|session.context| - 2] == Message(User, userMessage) &&
              (old(session.context) != [] ==> session.context[0] == old(session.context)[0])
  {
    if apiKey == [] {
      return ErrorResponse(NotConfigured);
    }
    if session == null || !session.active {
      return ErrorResponse(SessionMissing);
    }
    var context := session.context;
    context := context + [Message(User, userMessage)];
    if |context| > MaxContext {
      context := [context[0]] + context[|context| - KeptRecent..];
    }
    assert context == Trim(session.context + [Message(User, userMessage)]);
    TrimKeepsLast(session.context + [Message(User, userMessage)]);
    match api
    case Raised(message) =>
      return ErrorResponse(ErrorPrefix + message);
    case Answered(text, tokens) =>
      context := context + [Message(Assistant, text)];
      session.context := context;
      session.messageCount := session.messageCount + 1;
      session.tokenCount := session.tokenCount + tokens;
      r := Replied(session.sessionId, FormatAsWritten(text), text, session.messageCount);
  }

  // ---------------------------------------------------------------------
  // Markdown to Telegram HTML
  // ---------------------------------------------------------------------

  const Bold := "**"
  const Italic := "*"
  const MaxReply: nat := 4000
  const KeptReply: nat := 3900
  const CutNote := "\n\n... (сообщение сокращено)"

  /** The length limit: a reply over 4000 characters keeps its first 3900 and a note. */
  function Shorten(s: string): (r: string)
    ensures |s| <= MaxReply ==> r == s
    ensures |s| > MaxReply ==> r == s[..KeptReply] + CutNote
    ensures |r| <= MaxReply
    ensures forall c :: c !in s && c !in CutNote ==> c !in r
  {
    if |s| > MaxReply then s[..KeptReply] + CutNote else s
  }

  /** The rewrite as the source performs it: each first tag is turned into a closing tag. */
  function MarkupAsWritten(text: string): string {
    var bold := ReplaceFirst(ReplaceAll(text, Bold, "<b>"), "<b>", "</b>");
    ReplaceFirst(ReplaceAll(bold, Italic, "<i>"), "<i>", "</i>")
  }

  /**
   * `_format_response` as written.  No asterisk survives; the rewrite comes
   * back whole when it fits in 4000 characters and as its first 3900 and the
   * note otherwise; a text with no asterisk and no `<b>` or `<i>` tag comes
   * back unchanged unless it is too long.
   */
  function FormatAsWritten(text: string): (r: string)
    ensures '*' !in r
    ensures |r| <= MaxReply
    ensures |MarkupAsWritten(text)| <= MaxReply ==> r == MarkupAsWritten(text)
    ensures |MarkupAsWritten(text)| > MaxReply ==> r == MarkupAsWritten(text)[..KeptReply] + CutNote
    ensures '*' !in text && !Contains(text, "<b>") && !Contains(text, "<i>") && |text| <= MaxReply ==>
              r == text
  {
    var m := MarkupAsWritten(text);
    MarkupAsWrittenNoStar(text);
    if '*' !in text && !Contains(text, "<b>") && !Contains(text, "<i>") then
      MarkupAsWrittenPlain(text);
      Shorten(m)
    else Shorten(m)
  }

  /** The rewrite as written leaves no asterisk behind. */
  lemma MarkupAsWrittenNoStar(text: string)
    ensures '*' !in MarkupAsWritten(text)
  {
    var bold := ReplaceFirst(ReplaceAll(text, Bold, "<b>"), "<b>", "</b>");
    var italic := ReplaceAll(bold, Italic, "<i>");
    assert '*' !in italic;
  }

  /** Text without asterisks and without `<b>` or `<i>` is left as it is by the rewrite as written. */
  lemma MarkupAsWrittenPlain(text: string)
    requires '*' !in text && !Contains(text, "<b>") && !Contains(text, "<i>")
    ensures MarkupAsWritten(text) == text
  {
    ContainsMissing(text, Bold, 0);
    assert ReplaceAll(text, Bold, "<b>") == text;
    ContainsChar(text, '*');
    assert ReplaceAll(text, Italic, "<i>") == text;
  }

  /**
   * Replaces the occurrences of `pat` alternately by `open` and `close`,
   * starting with `open` when `opening` holds.
   */
  function ReplacePaired(s: string, pat: string, open: string, close: string, opening: bool): (r: string)
    requires pat != []
    ensures !Contains(s, pat) ==> r == s
    ensures forall c :: c !in s && c !in open && c !in close ==> c !in r
    ensures |pat| == 1 && pat[0] !in open && pat[0] !in close ==> pat[0] !in r
    decreases |s|
  {
    if s == [] then []
    else if StartsWith(s, pat) then
      (if opening then open else close) + ReplacePaired(s[|pat|..], pat, open, close, !opening)
    else [s[0]] + ReplacePaired(s[1..], pat, open, close, opening)
  }

  /** Text free of the pattern's first character passes through unchanged. */
  lemma {:induction false} ReplacePairedSkip(s: string, t: string, pat: string, open: string, close: string, opening: bool)
    requires pat != [] && pat[0] !in s
    ensures ReplacePaired(s + t, pat, open, close, opening) == s + ReplacePaired(t, pat, open, close, opening)
  {
    if s == [] {
      assert s + t == t;
    } else {
      var st := s + t;
      assert st[0] == s[0] && s[0] in s;
      HeadMismatch(st, pat);
      assert st[1..] == s[1..] + t;
      ReplacePairedSkip(s[1..], t, pat, open, close, opening);
      ConsConcat(s[0], s[1..], ReplacePaired(t, pat, open, close, opening));
      assert [s[0]] + s[1..] == s;
    }
  }

  /** The intended rewrite: marks are replaced in pairs, opening then closing. */
  function Markup(text: string): (r: string)
    ensures '*' !in r
    ensures '*' !in text ==> r == text
  {
    var bold := ReplacePaired(text, Bold, "<b>", "</b>", true);
    if '*' !in text then
      ContainsMissing(text, Bold, 0);
      ContainsChar(bold, '*');
      ReplacePaired(bold, Italic, "<i>", "</i>", true)
    else ReplacePaired(bold, Italic, "<i>", "</i>", true)
  }

  /**
   * `_format_response` with the tags paired.  No asterisk survives, the
   * rewrite is cut exactly as in `FormatAsWritten`, and a text without
   * asterisks that is short enough comes back unchanged.
   */
  function FormatResponse(text: string): (r: string)
    ensures '*' !in r
    ensures |r| <= MaxReply
    ensures '*' !in text && |text| <= MaxReply ==> r == text
    ensures |Markup(text)| <= MaxReply ==> r == Markup(text)
    ensures |Markup(text)| > MaxReply ==> r == Markup(text)[..KeptReply] + CutNote
  {
    Shorten(Markup(text))
  }

  /** As written, a bold span such as `**x**` comes out as `</b>x<b>`. */
  lemma FormatAsWrittenSwapsBold(s: string)
    requires '*' !in s && 'i' !in s && |s| + 7 <= MaxReply
    ensures FormatAsWritten("**" + s + "**") == "</b>" + s + "<b>"
  {
    var text := "**" + s + "**";
    assert StartsWith(text, Bold);
    assert text[2..] == s + "**";
    ReplaceAllSkip(s, "**", Bold, "<b>");
    assert ReplaceAll("**", Bold, "<b>") == "<b>";
    var bold := "<b>" + s + "<b>";
    assert ReplaceAll(text, Bold, "<b>") == bold;
    assert StartsWith(bold, "<b>") && bold[3..] == s + "<b>";
    var swapped := "</b>" + s + "<b>";
    assert ReplaceFirst(bold, "<b>", "</b>") == swapped;
    ContainsChar(swapped, '*');
    ContainsMissing(swapped, "<i>", 1);
    assert MarkupAsWritten(text) == swapped;
  }

  /** A `**` cannot occur in `*s*` when `s` is a non-empty run without asterisks. */
  lemma NoDoubleMark(s: string)
    requires '*' !in s && s != []
    ensures !Contains("*" + s + "*", Bold)
  {
    var text := "*" + s + "*";
    forall i | 0 <= i <= |text|
      ensures !StartsWith(text[i..], Bold)
    {
      if i == 0 {
        assert text[i..][1] == s[0] && s[0] in s;
      } else if i <= |s| {
        assert text[i..][0] == s[i - 1] && s[i - 1] in s;
      }
    }
    ContainsIffOccurs(text, Bold);
  }

  /** As written, an italic span such as `*x*` comes out as `</i>x<i>`. */
  lemma FormatAsWrittenSwapsItalic(s: string)
    requires '*' !in s && 'b' !in s && s != [] && |s| + 7 <= MaxReply
    ensures FormatAsWritten("*" + s + "*") == "</i>" + s + "<i>"
  {
    var text := "*" + s + "*";
    NoDoubleMark(s);
    ContainsMissing(text, "<b>", 1);
    assert StartsWith(text, Italic);
    assert text[1..] == s + "*";
    ReplaceAllSkip(s, "*", Italic, "<i>");
    assert ReplaceAll("*", Italic, "<i>") == "<i>";
    var marked := "<i>" + s + "<i>";
    assert ReplaceAll(text, Italic, "<i>") == marked;
    assert StartsWith(marked, "<i>") && marked[3..] == s + "<i>";
    assert ReplaceFirst(marked, "<i>", "</i>") == "</i>" + s + "<i>";
  }

  /** With paired tags, a bold span becomes `<b>…</b>`. */
  lemma FormatBoldSpan(s: string)
    requires '*' !in s && |s| + 7 <= MaxReply
    ensures FormatResponse("**" + s + "**") == "<b>" + s + "</b>"
  {
    var text := "**" + s + "**";
    assert StartsWith(text, Bold);
    assert text[2..] == s + "**";
    ReplacePairedSkip(s, "**", Bold, "<b>", "</b>", false);
    assert ReplacePaired("**", Bold, "<b>", "</b>", false) == "</b>";
    var bold := "<b>" + s + "</b>";
    assert ReplacePaired(text, Bold, "<b>", "</b>", true) == bold;
    ContainsChar(bold, '*');
  }

  /** With paired tags, an italic span becomes `<i>…</i>`. */
  lemma FormatItalicSpan(s: string)
    requires '*' !in s && s != [] && |s| + 7 <= MaxReply
    ensures FormatResponse("*" + s + "*") == "<i>" + s + "</i>"
  {
    var text := "*" + s + "*";
    assert !StartsWith(text, Bold) by { assert text[1] == s[0] && s[0] in s; }
    assert text[1..] == s + "*";
    ReplacePairedSkip(s, "*", Bold, "<b>", "</b>", true);
    assert ReplacePaired("*", Bold, "<b>", "</b>", true) == "*";
    assert ReplacePaired(text, Bold, "<b>", "</b>", true) == text;
    assert StartsWith(text, Italic);
    ReplacePairedSkip(s, "*", Italic, "<i>", "</i>", false);
    assert ReplacePaired("*", Italic, "<i>", "</i>", false) == "</i>";
  }
}
