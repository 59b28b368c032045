# MindMate bot core, modelled in Dafny

MindMate is a Telegram bot for mood tracking and emotional support. Most of
it is I/O: Telegram handlers, database access and calls to the DeepSeek
chat API. This project models the deterministic logic inside it and proves
what that logic guarantees:

- **The rule-based text analyzer** (`NLPAnalyzer`), in modules `NlpLexicon`
  and `NlpAnalyzer`. It covers:
  - topic tagging by keyword hits against a fixed lexicon, sorted by
    confidence with Python's stable sort and cut to five;
  - emotion tagging;
  - crisis-phrase detection;
  - the additive stress score, clamped to 1..10;
  - the threshold-driven recommendation list;
  - the composed analysis record, with its "too short" and error fallbacks;
  - the textual summary.

  Confidences are integer tenths: `min(10, 3 * hits)` for topics and
  `min(10, 2 * hits)` for emotions.
- **The small helpers** of `utils.py`, in module `Utils`:
  - mood-score validation;
  - text truncation;
  - the mood-emoji scale;
  - chunking buttons into keyboard rows;
  - dotted-path dictionary lookup;
  - the "time ago" phrase;
  - `RateLimiter`, a class holding a map from user to request times, with
    the current time passed in.
- **The chat client** (`DeepSeekChat`), in module `DeepSeekChat`:
  - the mode-to-prompt fallback;
  - a chat session as a class whose context and counters `SendMessage`
    updates in place;
  - the bounded context window: append the user message, keep the system
    message plus the last 19 entries, then append the reply;
  - the error reply;
  - the Markdown-to-HTML rewrite and length cut of replies.
- **The reply choice of `handle_text_message`**, in module `MessageHandlers`.
  It is a three-way keyword classifier over the lower-cased text.

Module `Text` holds the Python string operations the code relies on
(`in`, `replace`, `strip`, `split`, `join`, `lower`, `str(int)`), each with
the properties the other modules need. Module `Wrappers` holds `Option`.

## Model

| member | source | states |
|---|---|---|
| Text.ContainsIffOccurs | nlp_analyzer.py:195 | `keyword in text` holds exactly when the keyword occurs at some position of the text |
| Text.ReplaceAll | deepseek_chat.py:306 | `str.replace`: text without the pattern is unchanged; no character absent from text and replacement appears; a one-character pattern not in the replacement is gone from the result |
| Text.ReplaceFirst | deepseek_chat.py:306 | `str.replace(old, new, 1)`: text without the pattern is unchanged and no new characters appear beyond the replacement's |
| Text.ReplaceAllSkip | deepseek_chat.py:306 | replacing in a text whose prefix cannot start a match leaves that prefix as it is |
| Text.Strip | nlp_analyzer.py:77 | `str.strip()`: the result is empty exactly when the text is all whitespace; otherwise it neither starts nor ends with whitespace |
| Text.StripLeft | nlp_analyzer.py:77 | the result is a suffix of the text and everything cut off is whitespace |
| Text.StripRight | nlp_analyzer.py:77 | the result is a prefix of the text and everything cut off is whitespace |
| Text.Words | nlp_analyzer.py:242 | `str.split()`: every word is non-empty and holds no whitespace |
| Text.WordsAfterWord | nlp_analyzer.py:242 | a word followed by whitespace splits off as the first word, the rest split on its own: words are the maximal non-whitespace runs, in order |
| Text.NoSpaceIff | nlp_analyzer.py:242 | a word holds no whitespace exactly when none of its characters is whitespace |
| Text.WordsEmpty | nlp_analyzer.py:242-243 | a text splits into no words exactly when it is all whitespace |
| Text.CountChar | nlp_analyzer.py:250 | `str.count` of one character is at most the length, and zero exactly when the character is absent |
| Text.Join | nlp_analyzer.py:418 | `sep.join(parts)` starts with the first part and ends with the last |
| Text.JoinKeepsOut | nlp_analyzer.py:418 | a character absent from every part and from the separator is absent from the joined text |
| Text.Split | utils.py:86 | `str.split(sep)` yields one more field than there are separators, and no field holds the separator |
| Text.JoinSplit | utils.py:86 | joining the fields of a split gives back the text |
| Text.SplitJoin | nlp_analyzer.py:418 | splitting a join of separator-free parts gives back the parts |
| Text.NatToString | nlp_analyzer.py:401 | `str(n)` is a non-empty run of digits without a leading zero |
| Text.ParseNatToString | nlp_analyzer.py:401 | reading back `str(n)` gives `n` |
| Text.IntToString | nlp_analyzer.py:401 | `str(i)` is non-empty and is the digit string for non-negative `i` |
| Text.Lower | message_handlers.py:90 | `str.lower()` keeps the length |
| Text.LowerIdempotent | message_handlers.py:90 | lower-casing twice is lower-casing once |
| NlpLexicon.Matched | nlp_analyzer.py:194-196 | the matched keywords number at most the keywords |
| NlpLexicon.MatchedInOrder | nlp_analyzer.py:194-196 | the matches are a subsequence of the keyword list, so they keep its order |
| NlpLexicon.MatchedCount | nlp_analyzer.py:194-196 | a keyword is matched, as many times as it is listed, exactly when it occurs in the text |
| NlpLexicon.TagOf | nlp_analyzer.py:200-207 | a category yields one tag exactly when some keyword matched, carrying its name and matches |
| NlpLexicon.Tags | nlp_analyzer.py:190-207 | at most one tag per category; every tag has a match and confidence `min(10, step * matches)` |
| NlpLexicon.TagsSound | nlp_analyzer.py:190-207 | every tag reports the matches of a lexicon category of that name |
| NlpLexicon.TagsComplete | nlp_analyzer.py:190-207 | every category with a match gets a tag |
| NlpLexicon.TagsInLexiconOrder | nlp_analyzer.py:269-282 | tag names are a subsequence of the lexicon's names, so tags come in lexicon order |
| NlpLexicon.TagNamesDistinct | nlp_analyzer.py:190-207 | with unique category names, no name is tagged twice |
| NlpLexicon.Insert | nlp_analyzer.py:210 | inserting a tag adds exactly that tag to the multiset and to the members |
| NlpLexicon.InsertSorted | nlp_analyzer.py:210 | inserting into a list sorted by non-increasing confidence keeps it sorted |
| NlpLexicon.InsertBucket | nlp_analyzer.py:210 | the inserted tag goes after every tag of equal confidence |
| NlpLexicon.SortByConfidence | nlp_analyzer.py:210 | `sort(key=confidence, reverse=True)` yields a permutation sorted by non-increasing confidence |
| NlpLexicon.SortStable | nlp_analyzer.py:210 | the sort is stable: tags of each confidence keep their relative order |
| NlpLexicon.SortDistinct | nlp_analyzer.py:210 | sorting keeps names distinct |
| NlpLexicon.LexiconsUnique | nlp_analyzer.py:39-56 | the topic and emotion tables have unique category names, as dict keys do |
| NlpAnalyzer.DefaultValid | nlp_analyzer.py:31-65 | the analyzer as constructed satisfies its invariant |
| NlpAnalyzer.MatchKeywords | nlp_analyzer.py:269-272 | the keyword loop collects exactly the matched keywords in order |
| NlpAnalyzer.TopTopics | nlp_analyzer.py:185-213 | at most five topics, sorted by non-increasing confidence, each with a hit and confidence `min(10, 3 * hits)` |
| NlpAnalyzer.TopTopicsDistinct | nlp_analyzer.py:185-213 | no topic is reported twice |
| NlpAnalyzer.TopTopicsSound | nlp_analyzer.py:185-213 | every topic reports the matches of a lexicon topic of that name |
| NlpAnalyzer.TopTopicsComplete | nlp_analyzer.py:185-213 | when at most five topics match, every matching topic is reported |
| NlpAnalyzer.Top | nlp_analyzer.py:213 | `topics[:5]` is the prefix of length `min(5, n)` |
| NlpAnalyzer.ScoreTopic | nlp_analyzer.py:191-198 | the inner loop finds the matched keywords and three tenths per hit |
| NlpAnalyzer.ExtractTopics | nlp_analyzer.py:185-213 | the loop, sort and cut compute `TopTopics` |
| NlpAnalyzer.DetectEmotions | nlp_analyzer.py:256-284 | the loop computes the emotion tags with two tenths per hit: one tag per emotion with a hit, in lexicon order (by `Tags`, `TagsInLexiconOrder`) |
| NlpAnalyzer.CheckCrisisKeywords | nlp_analyzer.py:286-293 | found phrases are exactly the crisis phrases in the text, in declaration order; the flag holds exactly when some phrase occurs |
| NlpAnalyzer.SentimentStress | nlp_analyzer.py:220-227 | the sentiment adds 1 to 3, and something exactly when the label is negative |
| NlpAnalyzer.CountNamed | nlp_analyzer.py:232-234 | the stress-topic count is at most the topic count, and zero exactly when no topic is a stress topic |
| NlpAnalyzer.CountNamedAtMost | nlp_analyzer.py:229-234 | with distinct topic names, at most as many topics count as there are stress topics |
| NlpAnalyzer.StressTopicNamesCount | nlp_analyzer.py:230 | there are four stress topics |
| NlpAnalyzer.LengthStress | nlp_analyzer.py:242-247 | the length adds 1 exactly when there are fewer than 10 or more than 100 words |
| NlpAnalyzer.ExclamationStress | nlp_analyzer.py:249-251 | the exclamation marks add 1 exactly when there are more than three |
| NlpAnalyzer.StressLevel | nlp_analyzer.py:254 | the level lies in 1..10, is never below the baseline 5, and is the raw score capped at 10 |
| NlpAnalyzer.StressBounds | nlp_analyzer.py:217-251 | at most 4 stress topics count, and the raw score lies between 5 and 5+3+4+2+1+1 |
| NlpAnalyzer.StressAtBaseline | nlp_analyzer.py:217-254 | the level is exactly 5 precisely when every contribution is zero |
| NlpAnalyzer.CountStressTopics | nlp_analyzer.py:232-234 | the loop counts the topics whose name is a stress topic |
| NlpAnalyzer.CalculateStressLevel | nlp_analyzer.py:215-254 | the step-by-step accumulation computes `StressLevel` |
| NlpAnalyzer.Recommend | nlp_analyzer.py:314-340 | the recommendation list is never empty |
| NlpAnalyzer.RecommendRules | nlp_analyzer.py:321-338 | each rule's advice appears exactly when the rule fires; "keep observing" appears exactly when no rule fires, and then alone |
| NlpAnalyzer.FiredInOrder | nlp_analyzer.py:321-335 | the advice of the rules comes in the order the rules are tried |
| NlpAnalyzer.CrisisFirst | nlp_analyzer.py:321-322 | when the crisis rule fires, its advice comes first |
| NlpAnalyzer.RecommendInOrder | nlp_analyzer.py:314-340 | recommendations are in rule order, never repeated, and the crisis warning comes first when the crisis flag is set |
| NlpAnalyzer.HighStressAdvice | nlp_analyzer.py:324-328 | stress 8 or more gives both the breathing and the journaling advice, and never the fallback |
| NlpAnalyzer.GenerateRecommendations | nlp_analyzer.py:314-340 | the sequence of conditional appends computes `Recommend` |
| NlpAnalyzer.AnalyzeWellFormed | nlp_analyzer.py:67-121 | each of the three outcomes has stress in 1..10, at most 5 sorted distinct topics, a crisis flag matching the found list, and a non-empty recommendation list that starts with the crisis warning when flagged |
| NlpAnalyzer.AnalyzeText | nlp_analyzer.py:67-121 | a stripped input under 3 characters gives the empty record; a failure gives the error record; otherwise the composed analysis; all are well formed |
| NlpAnalyzer.ShownTopics | nlp_analyzer.py:410-411 | the summary shows the names of the first `min(3, n)` topics, in order |
| NlpAnalyzer.SummaryLines | nlp_analyzer.py:389-416 | 2 to 4 lines: mood first, stress band second, a topic line only when there are topics, the crisis line last when flagged |
| NlpAnalyzer.Summary | nlp_analyzer.py:380-418 | a missing record gives "Анализ недоступен."; otherwise the text starts with the mood line and ends with the crisis line when flagged |
| NlpAnalyzer.TextSummary | nlp_analyzer.py:380-418 | appending the lines and joining them computes `Summary` |
| NlpAnalyzer.MoodLineSingle | nlp_analyzer.py:392-397 | the mood line holds no newline |
| NlpAnalyzer.StressLineSingle | nlp_analyzer.py:400-407 | the stress line holds no newline |
| NlpAnalyzer.TopicsLineSingle | nlp_analyzer.py:410-412 | the topic line holds no newline when no topic name does |
| NlpAnalyzer.SummaryLinesSingle | nlp_analyzer.py:389-416 | no summary line holds a newline when no topic name does |
| NlpAnalyzer.SummaryRoundTrip | nlp_analyzer.py:418 | the summary split at newlines gives back exactly its lines |
| Utils.ValidateMoodScore | utils.py:33-41 | the score is returned exactly when it converts to an integer in 1..10; otherwise None |
| Utils.SliceTo | utils.py:47 | Python's `s[:end]`, with a negative end counted from the back |
| Utils.TruncateText | utils.py:43-47 | text within the limit is unchanged; longer text ends with "..."; for a limit of at least 3 it has exactly the limit's length and keeps the first limit-3 characters |
| Utils.TruncateShortMaximum | utils.py:47 | for a limit below 3 the result can be longer than the limit: `truncate_text("abcdef", 2)` is "abcde..." |
| Utils.MoodEmoji | utils.py:49-66 | the emoji is on the scale; 9 and up gives 😍, 1 and below gives 😭 |
| Utils.Happiness | utils.py:49-66 | the position of an emoji on the scale, saddest first |
| Utils.MoodScaleDistinct | utils.py:49-66 | the scale's emojis are distinct, so each has one position |
| Utils.MoodEmojiMonotone | utils.py:49-66 | a higher score never gets a sadder emoji |
| Utils.NextIsMultiple | utils.py:75 | `(i + 1) % columns == 0` fires exactly when the current row is full |
| Utils.CreateKeyboard | utils.py:68-82 | the rows concatenate to the buttons; all rows but the last have exactly `columns` items; the last is non-empty and not longer; zero columns with buttons raises |
| Utils.LookupAppend | utils.py:89-93 | following a path in two stretches is following it at once |
| Utils.LookupFails | utils.py:89-93 | the lookup fails exactly when some key on the way is missing or lands under a non-dictionary |
| Utils.SafeGet | utils.py:84-95 | the value at the dotted path when every key is found, otherwise the default |
| Utils.ElapsedOf | utils.py:16-31 | the bucket: years past 365 days, months past 30, days, hours past 3600 s, minutes past 60 s, each counted by floor division; "just now" exactly when days ≤ 0 and seconds ≤ 60 |
| Utils.TimeAgo | utils.py:11-31 | "только что" is returned exactly when days ≤ 0 and seconds ≤ 60 |
| Utils.PhraseStartsWithCount | utils.py:16-29 | every other phrase starts with its count, so none reads "только что" |
| Utils.Recent | utils.py:113-117 | pruning keeps exactly the times after `now - period` |
| Utils.RecentIdempotent | utils.py:113-117 | pruning twice at the same moment is pruning once |
| Utils.RateLimiter.constructor | utils.py:100-103 | a new limiter has the given limit and period and no requests |
| Utils.RateLimiter.Remaining | utils.py:127-140 | an unknown user has the full limit; otherwise the limit minus recent requests, floored at 0, so within 0..limit |
| Utils.RateLimiter.CheckLimit | utils.py:105-125 | the user's list is pruned; the call is allowed exactly when fewer than the limit remain (exactly when `get_remaining` was positive), and only then is `now` appended; no list grows past the limit |
| Utils.RecordedStaysRecent | utils.py:113-124 | a request just recorded at `now` stays in the window: pruning again at the same moment keeps the list whole |
| DeepSeekChat.ModeOf | deepseek_chat.py:26-58 | a found mode is the one whose key was asked for |
| DeepSeekChat.ModeOfModeId | deepseek_chat.py:26-58 | every mode is found under its own key |
| DeepSeekChat.ResolveMode | deepseek_chat.py:67 | a known mode name picks that mode; an unknown name falls back to the psychologist |
| DeepSeekChat.AvailableModes | deepseek_chat.py:338-344 | three modes, psychologist first, every id a known mode, every mode listed once |
| DeepSeekChat.Trim | deepseek_chat.py:108-110 | a context of at most 20 entries is unchanged; a longer one is cut to 20, keeping its first entry and, in order, its last 19 |
| DeepSeekChat.TrimKeepsLast | deepseek_chat.py:109-110 | the newest entry survives the cut |
| DeepSeekChat.ChatSession.constructor | deepseek_chat.py:71-76 | a new session is active, has zero counters and its context is the single system message |
| DeepSeekChat.CreateSession | deepseek_chat.py:60-85 | without an API key, or when storing fails, no session; otherwise a fresh session whose context is the one system message of the mode, psychologist for unknown modes |
| DeepSeekChat.ErrorResponse | deepseek_chat.py:329-336 | a failure carrying the message, whose text is exactly the warning, the message and the retry hint: it starts with the first two, ends with the third, and is as long as the three together |
| DeepSeekChat.SendMessage | deepseek_chat.py:87-144 | no key or no active session gives the matching error and changes nothing; an API exception gives "Ошибка: …" and leaves the session as it was; an answer appends the user message, cuts, appends the reply and advances the counters, leaving at most 21 entries ending with the user message then the reply, the system message first; the reply shown is `FormatAsWritten` of the answer, as `_format_response` computes it |
| DeepSeekChat.Shorten | deepseek_chat.py:312-313 | text of at most 4000 characters is unchanged; longer text becomes exactly its first 3900 characters followed by the cut note; never over 4000 |
| DeepSeekChat.FormatAsWritten | deepseek_chat.py:300-315 | the reply as the code rewrites it: no '*'; a rewrite of at most 4000 characters comes back whole, a longer one as its first 3900 characters and the cut note; text with no '*', no `<b>`, no `<i>` and within the limit is unchanged |
| DeepSeekChat.MarkupAsWrittenNoStar | deepseek_chat.py:305-310 | the rewrite as written leaves no '*' behind |
| DeepSeekChat.MarkupAsWrittenPlain | deepseek_chat.py:305-310 | text with no '*', no `<b>` and no `<i>` passes the rewrite as written unchanged |
| DeepSeekChat.FormatAsWrittenSwapsBold | deepseek_chat.py:306 | as written, `**s**` comes out as `</b>s<b>` |
| DeepSeekChat.FormatAsWrittenSwapsItalic | deepseek_chat.py:309 | as written, `*s*` comes out as `</i>s<i>` |
| DeepSeekChat.ReplacePaired | deepseek_chat.py:306-309 | text without the marker is unchanged and a one-character marker is gone from the result |
| DeepSeekChat.Markup | deepseek_chat.py:306-309 | no '*' remains, and text without '*' is unchanged |
| DeepSeekChat.FormatResponse | deepseek_chat.py:300-315 | the paired rewrite: no '*'; a rewrite of at most 4000 characters comes back whole, a longer one as its first 3900 characters plus the cut note; text without '*' within the limit is unchanged |
| DeepSeekChat.FormatBoldSpan | deepseek_chat.py:306 | `**s**` becomes `<b>s</b>` |
| DeepSeekChat.FormatItalicSpan | deepseek_chat.py:309 | `*s*` becomes `<i>s</i>` |
| MessageHandlers.AnyInIff | message_handlers.py:90 | `any(word in text …)` holds exactly when some listed word occurs in the text |
| MessageHandlers.Quote | message_handlers.py:112 | `text[:100]` is a prefix of at most 100 characters, all of a short text, exactly 100 of a long one |
| MessageHandlers.ChooseReply | message_handlers.py:90-118 | exactly one reply: comfort when a distress word occurs in the lower-cased text, otherwise encouragement when a good-mood word does, otherwise the echo of `text[:100]` |
| MessageHandlers.DistressFirst | message_handlers.py:90-101 | a text with both a distress word and a good-mood word gets the comforting reply |
| MessageHandlers.KeywordSuppressesEcho | message_handlers.py:90-118 | the echo is chosen only when no keyword matches |
| MessageHandlers.ChoiceIgnoresCase | message_handlers.py:90-101 | matching ignores case: lower-casing the text first picks the same reply |
| MessageHandlers.ReplyText | message_handlers.py:108-118 | the echo reply is the fixed head, the quote, then the fixed tail |
| MessageHandlers.HandleText | message_handlers.py:84-120 | the sent text is the comfort text, the encouragement text, or exactly the fixed head, `text[:100]` and the fixed tail, by the rule above |

## Findings

| source | as written | input that shows it | evidently intended | confidence | as-written member | corrected member |
|---|---|---|---|---|---|---|
| deepseek_chat.py:306 | every `**` becomes `<b>`, then the first `<b>` becomes `</b>` | `**x**` gives `</b>x<b>` | `**x**` gives `<b>x</b>`: open and close alternate | not executed | DeepSeekChat.FormatAsWrittenSwapsBold | DeepSeekChat.FormatBoldSpan |
| deepseek_chat.py:309 | every `*` becomes `<i>`, then the first `<i>` becomes `</i>` | `*x*` gives `</i>x<i>` | `*x*` gives `<i>x</i>` | not executed | DeepSeekChat.FormatAsWrittenSwapsItalic | DeepSeekChat.FormatItalicSpan |

The corrected rewrite (`DeepSeekChat.Markup`, `DeepSeekChat.FormatResponse`)
turns the markers into opening and closing tags by turns. It is kept beside
the rewrite as written; `SendMessage` follows the code and returns
`FormatAsWritten` of the answer, so its replies carry the swapped tags.

## Left out

- Sentiment scoring with NLTK VADER and TextBlob, which are foreign libraries working in floats. The sentiment is an input: a label, plus the band of its compound score (≤ 0.1, ≤ 0.3, above). The `'ru'`/`"russian"` language switch belongs to this scoring.
- `_clean_text`, a Unicode regex substitution plus `lower()`. The cleaned text is an input to `AnalyzeText`.
- Exceptions raised inside `analyze_text`, in practice by the NLTK calls. They are an input `fault` to `AnalyzeText`.
- The unused `word_tokenize` call, the NLTK downloads and the module-level analyzer instance.
- `_calculate_readability` and `_calculate_cost`: float arithmetic. The record's readability score and timestamp are not modelled, and neither are the session's `total_cost` and `last_message_at`.
- The `usage` dictionary of a chat reply: only its `total_tokens` is kept.
- Every timestamp from `datetime.utcnow()`. Times are parameters: integer seconds for the rate limiter, and days plus seconds of the difference for `get_time_ago`.
- The DeepSeek HTTP call, SSE streaming, JSON parsing and the database: the API's answer or exception, whether a session exists and is active, and whether the session write fails are all inputs.
- The UUID generator: the new session's id is a parameter.
- The database layer. `deepseek_chat.py` uses a `db_manager.session_scope` and a `ChatSession` model that database.py does not define, so the model assumes a database layer that rolls back on an exception: an API exception leaves the session as it was.
- `format_datetime`, `end_session`, `get_session_info`, `stream_response`, and the other Telegram handlers, which only send constant replies.
- The `except` branch of `handle_text_message` (message_handlers.py:122-124), which logs and sends a fixed acknowledgement. It is reached when the Telegram send fails, and also when the update carries no `message` (an edited message or a channel post, for which `update.message.text` raises). Neither path is modelled: the model takes the message text as given.
- Telegram delivery of the replies.
- Text.Lower: lower-cases only Latin A-Z and the Cyrillic capitals U+0400-U+042F, not every Unicode letter Python's `str.lower` maps.
- `validate_mood_score`'s `int(score)` conversion is an input, `None` when `int()` raises ValueError or TypeError, because `int()` on arbitrary objects is not modelled. Other exceptions that the source lets propagate, such as the OverflowError of `int(float('inf'))`, are not modelled.
- Python list values stand for dictionaries in the analysis record. The lexicons are sequences of (name, keywords) pairs in dict order, with names proved unique.
- A syntax error in the source: the friend prompt at deepseek_chat.py:57 ends with four double quotes. The first three end the string, and the fourth starts a literal that is never closed. The model uses the evidently intended prompt, which ends with a closing quotation mark.
- Crisis phrases do not feed the stress score. A message such as "не хочу жить" alone scores 5 + 1 = 6: the baseline plus 1 for having fewer than 10 words. It reaches 8 only when the sentiment is negative with a compound magnitude above 0.1.
