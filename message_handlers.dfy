/**
 * The reply `handle_text_message` picks for a free-text message: a word of
 * distress gets the calming advice, otherwise a word of good mood gets the
 * encouragement, otherwise the message is echoed back.  Keywords are matched
 * as substrings of the lower-cased text.  Sending the reply through Telegram
 * is not modelled.
 */
module MessageHandlers {
  import opened Text

  const DistressWords: seq<string> := ["плохо", "грустно", "устал", "стресс"]
  const GoodMoodWords: seq<string> := ["хорошо", "отлично", "рад", "счастлив"]

  /** How many characters of the message the echo reply quotes. */
  const QuoteLimit: nat := 100

  /** `any(word in text for word in words)`, scanning the words in order. */
  predicate AnyIn(words: seq<string>, text: string)
    decreases |words|
  {
    words != [] && (Contains(text, words[0]) || AnyIn(words[1..], text))
  }

  /** Some word of the list occurs in the text. */
  lemma {:induction false} AnyInIff(words: seq<string>, text: string)
    ensures AnyIn(words, text) <==> exists i :: 0 <= i < |words| && Contains(text, words[i])
    decreases |words|
  {
    if words != [] {
      AnyInIff(words[1..], text);
      assert forall i :: 1 <= i < |words| ==> words[1..][i - 1] == words[i];
    }
  }

  datatype Reply = Comfort | Encourage | Echo(quoted: string)

  /** Python's `text[:100]`. */
  function Quote(text: string): (q: string)
    ensures |q| <= QuoteLimit && |q| <= |text| && q == text[..|q|]
    ensures |text| <= QuoteLimit ==> q == text
    ensures |text| > QuoteLimit ==> |q| == QuoteLimit
  {
    if |text| <= QuoteLimit then text else text[..QuoteLimit]
  }

  /**
   * The reply chosen for a message: exactly one of the three, with distress
   * words checked first, and the echo only when no keyword matches.
   */
  function ChooseReply(text: string): (r: Reply)
    ensures r.Comfort? <==> AnyIn(DistressWords, Lower(text))
    ensures r.Encourage? <==> !AnyIn(DistressWords, Lower(text)) && AnyIn(GoodMoodWords, Lower(text))
    ensures r.Echo? <==> !AnyIn(DistressWords, Lower(text)) && !AnyIn(GoodMoodWords, Lower(text))
    ensures r.Echo? ==> r.quoted == Quote(text)
  {
    var lowered := Lower(text);
    if AnyIn(DistressWords, lowered) then Comfort
    else if AnyIn(GoodMoodWords, lowered) then Encourage
    else Echo(Quote(text))
  }

  /** A message naming both moods, such as "плохо" and "хорошо", gets the comforting reply. */
  lemma DistressFirst(text: string, i: nat, j: nat)
    requires i < |DistressWords| && j < |GoodMoodWords|
    requires Contains(Lower(text), DistressWords[i]) && Contains(Lower(text), GoodMoodWords[j])
    ensures ChooseReply(text) == Comfort
  {
    AnyInIff(DistressWords, Lower(text));
  }

  /** Any keyword of the message, in whatever case, rules out the echo. */
  lemma KeywordSuppressesEcho(text: string, word: string)
    requires word in DistressWords || word in GoodMoodWords
    requires Contains(Lower(text), word)
    ensures !ChooseReply(text).Echo?
  {
    AnyInIff(DistressWords, Lower(text));
    AnyInIff(GoodMoodWords, Lower(text));
  }

  /** The choice does not depend on letter case: lower-casing first picks the same kind of reply. */
  lemma ChoiceIgnoresCase(text: string)
    ensures ChooseReply(Lower(text)).Comfort? == ChooseReply(text).Comfort?
    ensures ChooseReply(Lower(text)).Encourage? == ChooseReply(text).Encourage?
    ensures ChooseReply(Lower(text)).Echo? == ChooseReply(text).Echo?
  {
    LowerIdempotent(text);
  }

  const ComfortText :=
    "\n😔 *Похоже, вам нелегко.*\n\nПопробуйте:\n1. Сделать глубокий вдох и выдох\n2. Выпить стакан воды\n3. Немного прогуляться\n\nМожете оценить настроение точнее командой /mood\n            "
  const EncourageText :=
    "\n😊 *Отлично, что у вас хорошее настроение!*\n\nПродолжайте в том же духе!\nЗапишите, что именно вызвало позитивные эмоции.\n            "
  const EchoHead := "\n📝 *Я получил ваше сообщение:*\n\n\""
  const EchoTail :=
    "...\"\n\nЧто вы хотите сделать дальше?\n• Оценить настроение: /mood\n• Посмотреть статистику: /stats\n• Пообщаться с ИИ: /chat\n            "

  /** The Markdown text sent for a reply; the echo quotes its text between fixed lines. */
  function ReplyText(r: Reply): (s: string)
    ensures r.Echo? ==> StartsWith(s, EchoHead + r.quoted) && EndsWith(s, EchoTail)
    ensures r.Echo? ==> |s| == |EchoHead| + |r.quoted| + |EchoTail|
  {
    match r
    case Comfort => ComfortText
    case Encourage => EncourageText
    case Echo(q) =>
      var s := EchoHead + q + EchoTail;
      assert s[..|EchoHead + q|] == EchoHead + q;
      s
  }

  /** The reply to a message, as sent. */
  function HandleText(text: string): (s: string)
    ensures AnyIn(DistressWords, Lower(text)) ==> s == ComfortText
    ensures !AnyIn(DistressWords, Lower(text)) && AnyIn(GoodMoodWords, Lower(text)) ==> s == EncourageText
    ensures !AnyIn(DistressWords, Lower(text)) && !AnyIn(GoodMoodWords, Lower(text)) ==>
              StartsWith(s, EchoHead + Quote(text)) && EndsWith(s, EchoTail) &&
              |s| == |EchoHead| + |Quote(text)| + |EchoTail|
  {
    ReplyText(ChooseReply(text))
  }
}
