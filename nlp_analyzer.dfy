/**
 * The rule-based text analyzer: topic and emotion tagging, crisis-phrase
 * detection, the additive stress score, the recommendation rules, the
 * composed analysis record and its textual summary.
 *
 * The analyzer works on the already cleaned, lower-cased text, which is an
 * input here. The sentiment comes from a foreign scorer and is an input too:
 * a label and, for the stress score, the band its magnitude falls in.
 */
module NlpAnalyzer {
  import opened Wrappers
  import opened Text
  import opened NlpLexicon

  /** The label the sentiment scorer reports. */
  datatype Polarity = Positive | Negative | Neutral

  /**
   * The band of the magnitude of the scorer's compound score: at most 0.1,
   * above 0.1 up to 0.3, or above 0.3.
   */
  datatype Intensity = Mild | Moderate | Strong

  /** The `sentiment` entry: a scored label, or the `ERROR` record of a failed analysis. */
  datatype Sentiment = Scored(polarity: Polarity, intensity: Intensity) | Failed(error: string)

  /** The analysis record (its readability score and timestamp are not modelled). */
  datatype Analysis = Analysis(
    textOriginal: string,
    textCleaned: string,
    sentiment: Sentiment,
    topics: seq<Tag>,
    stressLevel: int,
    emotions: seq<Tag>,
    isCrisis: bool,
    crisisWordsFound: seq<string>,
    wordCount: nat,
    recommendations: seq<Advice>)

  /** Inputs whose stripped form is shorter than this are not analyzed. */
  const MinTextLength: nat := 3
  const BaselineStress: int := 5
  const MinStress: int := 1
  const MaxStress: int := 10

  /** Topics that raise the stress score by one each. */
  const StressTopicNames: set<string> := {"тревога", "депрессия", "одиночество", "финансы"}
  /** Word stems whose presence raises the stress score, by at most two in all. */
  const AnxietyWords: seq<string> := ["тревож", "паник", "страх", "боюсь", "нерв", "стресс"]
  const MaxAnxietyStress: nat := 2


  const WorkFinanceTopics: set<string> := {"работа", "финансы"}
  const LonelinessTopics: set<string> := {"одиночество"}

  /**
   * The analyzer's fixed configuration, built once by its constructor and
   * never changed: the topic lexicon and the crisis phrases (instance
   * attributes in the source) and the emotion lexicon (a local table of the
   * emotion detector).
   */
  datatype Analyzer = Analyzer(topics: seq<Category>, emotions: seq<Category>, crisisKeywords: seq<string>)
  {
    /** The lexicons are dicts: their category names are unique. */
    predicate Valid() {
      UniqueNames(topics) && UniqueNames(emotions)
    }
  }

  /** The analyzer as the bot constructs it. */
  const Default: Analyzer := Analyzer(TopicLexicon, EmotionLexicon, CrisisKeywords)

  lemma DefaultValid()
    ensures Default.Valid()
  {
    LexiconsUnique();
  }

  // ---------------------------------------------------------------------
  // Keyword matching

  /** The loop `for keyword in keywords: if keyword in text: matches.append(keyword)`. */
  method MatchKeywords(keywords: seq<string>, text: string) returns (matches: seq<string>)
    ensures matches == Matched(keywords, text)
  {
    matches := [];
    var i := 0;
    while i < |keywords|
      invariant 0 <= i <= |keywords|
      invariant matches == Matched(keywords[..i], text)
    {
      MatchedStep(keywords, i, text);
      if Contains(text, keywords[i]) {
        matches := matches + [keywords[i]];
      }
      i := i + 1;
    }
    assert keywords[..i] == keywords;
  }

  // ---------------------------------------------------------------------
  // Topics

  /**
   * The topic list: one tag per topic with a keyword in the text, sorted by
   * non-increasing confidence (ties in lexicon order), at most five.
   */
  function TopTopics(lex: seq<Category>, text: string): (ts: seq<Tag>)
    ensures |ts| <= MaxTopics
    ensures NonIncreasing(ts)
    ensures forall t :: t in ts ==>
      t.keywordsFound != [] && t.confidence == Min(MaxConfidence, TopicStep * |t.keywordsFound|)
  {
    var all := Tags(lex, text, TopicStep);
    var ts := Top(SortByConfidence(all));
    assert forall t :: t in ts ==> t in multiset(all);
    ts
  }

  /** The first five topics. */
  function Top(sorted: seq<Tag>): (ts: seq<Tag>)
    ensures |ts| == Min(MaxTopics, |sorted|) && ts == sorted[..|ts|]
  {
    sorted[..Min(MaxTopics, |sorted|)]
  }

  /** With unique category names, no topic is reported twice. */
  lemma TopTopicsDistinct(lex: seq<Category>, text: string)
    requires UniqueNames(lex)
    ensures Distinct(TagNames(TopTopics(lex, text)))
  {
    var all := Tags(lex, text, TopicStep);
    var sorted := SortByConfidence(all);
    TagNamesDistinct(lex, text, TopicStep);
    SortDistinct(all);
    var ts := TopTopics(lex, text);
    assert TagNames(ts) == TagNames(sorted)[..|ts|];
  }

  /** Every reported topic is a lexicon topic, reporting exactly its keywords found in the text. */
  lemma TopTopicsSound(lex: seq<Category>, text: string)
    ensures forall t :: t in TopTopics(lex, text) ==>
      exists c :: c in lex && c.name == t.name && t.keywordsFound == Matched(c.keywords, text)
  {
    var all := Tags(lex, text, TopicStep);
    TagsSound(lex, text, TopicStep);
    assert forall t :: t in TopTopics(lex, text) ==> t in multiset(all);
  }

  /** When at most five topics match, none is dropped. */
  lemma TopTopicsComplete(lex: seq<Category>, text: string)
    requires |Tags(lex, text, TopicStep)| <= MaxTopics
    ensures forall c :: c in lex && Matched(c.keywords, text) != [] ==>
      exists t :: t in TopTopics(lex, text) && t.name == c.name
  {
    var all := Tags(lex, text, TopicStep);
    TagsComplete(lex, text, TopicStep);
    var sorted := SortByConfidence(all);
    assert |sorted| == |all| by { assert |multiset(sorted)| == |multiset(all)|; }
    assert TopTopics(lex, text) == sorted;
    assert forall t :: t in all ==> t in sorted by {
      forall t | t in all ensures t in sorted {
        assert t in multiset(sorted);
      }
    }
  }

  /**
   * The inner loop of `_extract_topics`: the keywords found in the text, in
   * list order, and three tenths of confidence for each.
   */
  method ScoreTopic(keywords: seq<string>, text: string) returns (matches: seq<string>, confidence: nat)
    ensures matches == Matched(keywords, text)
    ensures confidence == |matches| * TopicStep
  {
    matches := [];
    confidence := 0;
    var j := 0;
    while j < |keywords|
      invariant 0 <= j <= |keywords|
      invariant matches == Matched(keywords[..j], text)
      invariant confidence == |matches| * TopicStep
    {
      MatchedStep(keywords, j, text);
      if Contains(text, keywords[j]) {
        matches := matches + [keywords[j]];
        confidence := confidence + TopicStep;
      }
      j := j + 1;
    }
    assert keywords[..j] == keywords;
  }

  /** `_extract_topics`: tag every topic, then sort by confidence and keep the first five. */
  method ExtractTopics(lex: seq<Category>, text: string) returns (topics: seq<Tag>)
    ensures topics == TopTopics(lex, text)
  {
    topics := [];
    var i := 0;
    while i < |lex|
      invariant 0 <= i <= |lex|
      invariant topics == Tags(lex[..i], text, TopicStep)
    {
      var category := lex[i];
      var matches, confidence := ScoreTopic(category.keywords, text);
      TagsStep(lex, i, text, TopicStep);
      if matches != [] {
        topics := topics + [Tag(category.name, matches, Min(MaxConfidence, confidence))];
      }
      i := i + 1;
    }
    assert lex[..i] == lex;
    topics := Top(SortByConfidence(topics));
  }

  // ---------------------------------------------------------------------
  // Emotions

  /** `_detect_emotions`: one tag per emotion with a keyword in the text, in lexicon order. */
  method DetectEmotions(lex: seq<Category>, text: string) returns (emotions: seq<Tag>)
    ensures emotions == Tags(lex, text, EmotionStep)
  {
    emotions := [];
    var i := 0;
    while i < |lex|
      invariant 0 <= i <= |lex|
      invariant emotions == Tags(lex[..i], text, EmotionStep)
    {
      var matches := MatchKeywords(lex[i].keywords, text);
      TagsStep(lex, i, text, EmotionStep);
      if matches != [] {
        emotions := emotions + [Tag(lex[i].name, matches, Min(MaxConfidence, |matches| * EmotionStep))];
      }
      i := i + 1;
    }
    assert lex[..i] == lex;
  }

  // ---------------------------------------------------------------------
  // Crisis phrases

  /**
   * `_check_crisis_keywords`: the crisis phrases occurring in the text, in
   * declaration order, and whether there is any.
   */
  method CheckCrisisKeywords(keywords: seq<string>, text: string) returns (isCrisis: bool, found: seq<string>)
    ensures found == Matched(keywords, text)
    ensures isCrisis <==> found != []
    ensures isCrisis <==> exists k :: k in keywords && Contains(text, k)
    ensures forall k :: k in found <==> k in keywords && Contains(text, k)
  {
    found := MatchKeywords(keywords, text);
    forall k ensures k in found <==> k in keywords && Contains(text, k) {
      MatchedCount(keywords, text, k);
    }
    isCrisis := |found| > 0;
    if isCrisis {
      assert found[0] in found;
    }
  }

  // ---------------------------------------------------------------------
  // Stress level

  /** What the sentiment adds: 1 to 3 for a negative label by intensity, else nothing. */
  function SentimentStress(s: Sentiment): (n: nat)
    ensures n <= 3
    ensures n >= 1 <==> s.Scored? && s.polarity == Negative
  {
    if s.Scored? && s.polarity == Negative then
      match s.intensity
      case Strong => 3
      case Moderate => 2
      case Mild => 1
    else 0
  }

  /** How many of the topics carry one of the given names. */
  function CountNamed(ts: seq<Tag>, names: set<string>): (n: nat)
    ensures n <= |ts|
    ensures n == 0 <==> forall i :: 0 <= i < |ts| ==> ts[i].name !in names
  {
    if ts == [] then 0
    else CountNamed(ts[..|ts| - 1], names) + (if ts[|ts| - 1].name in names then 1 else 0)
  }

  /** Dropping a name no topic carries does not change the count. */
  lemma {:induction false} CountNamedWithout(ts: seq<Tag>, names: set<string>, x: string)
    requires x !in TagNames(ts)
    ensures CountNamed(ts, names) == CountNamed(ts, names - {x})
    decreases |ts|
  {
    if ts != [] {
      assert TagNames(ts[..|ts| - 1]) == TagNames(ts)[..|ts| - 1];
      assert TagNames(ts)[|ts| - 1] == ts[|ts| - 1].name;
      CountNamedWithout(ts[..|ts| - 1], names, x);
    }
  }

  /** Topics with distinct names carry each name at most once. */
  lemma {:induction false} CountNamedAtMost(ts: seq<Tag>, names: set<string>)
    requires Distinct(TagNames(ts))
    ensures CountNamed(ts, names) <= |names|
    decreases |ts|
  {
    if ts != [] {
      var init, last := ts[..|ts| - 1], ts[|ts| - 1];
      assert TagNames(init) == TagNames(ts)[..|ts| - 1];
      if last.name in names {
        forall k | 0 <= k < |init| ensures TagNames(init)[k] != last.name {
          assert TagNames(ts)[k] != TagNames(ts)[|ts| - 1];
        }
        CountNamedWithout(init, names, last.name);
        CountNamedAtMost(init, names - {last.name});
      } else {
        CountNamedAtMost(init, names);
      }
    }
  }

  /** The four stress topic names are different. */
  lemma StressTopicNamesCount()
    ensures |StressTopicNames| == 4
  {
    var a, b, c, d := "тревога", "депрессия", "одиночество", "финансы";
    assert a[0] != b[0] && a[0] != c[0] && a[0] != d[0] && b[0] != c[0] && b[0] != d[0] && c[0] != d[0];
    assert StressTopicNames == {a} + {b} + {c} + {d};
    assert |{a} + {b}| == 2;
    assert |{a} + {b} + {c}| == 3;
  }

  /** What message length adds: one for fewer than 10 or more than 100 words. */
  function LengthStress(text: string): (n: nat)
    ensures n <= 1
    ensures n == 1 <==> |Words(text)| < 10 || |Words(text)| > 100
  {
    var words := |Words(text)|;
    if words < 10 then 1 else if words > 100 then 1 else 0
  }

  /** What exclamation marks add: one for more than three. */
  function ExclamationStress(text: string): (n: nat)
    ensures n <= 1
    ensures n == 1 <==> CountChar(text, '!') > 3
  {
    if '!' in text && CountChar(text, '!') > 3 then 1 else 0
  }

  /** The stress score before clamping. */
  function RawStress(an: Analyzer, text: string, s: Sentiment): int {
    BaselineStress
      + SentimentStress(s)
      + CountNamed(TopTopics(an.topics, text), StressTopicNames)
      + Min(|Matched(AnxietyWords, text)|, MaxAnxietyStress)
      + LengthStress(text)
      + ExclamationStress(text)
  }

  /** The stress level: the raw score clamped to 1..10, which is never below the baseline 5. */
  function StressLevel(an: Analyzer, text: string, s: Sentiment): (level: int)
    ensures MinStress <= level <= MaxStress
    ensures BaselineStress <= level
    ensures level == Min(MaxStress, RawStress(an, text, s))
  {
    var raw := RawStress(an, text, s);
    if raw < MinStress then MinStress else if raw > MaxStress then MaxStress else raw
  }

  /**
   * Each contribution is bounded: the sentiment adds at most 3, the stress
   * topics at most 4 (there are four such names and topic names are
   * distinct), the anxiety words at most 2, length and '!' at most 1 each.
   */
  lemma StressBounds(an: Analyzer, text: string, s: Sentiment)
    requires an.Valid()
    ensures CountNamed(TopTopics(an.topics, text), StressTopicNames) <= 4
    ensures BaselineStress <= RawStress(an, text, s) <= BaselineStress + 3 + 4 + 2 + 1 + 1
  {
    TopTopicsDistinct(an.topics, text);
    CountNamedAtMost(TopTopics(an.topics, text), StressTopicNames);
    StressTopicNamesCount();
  }

  /**
   * The level stays at the baseline 5 exactly when nothing adds to it: no
   * negative sentiment, no stress topic, no anxiety word, 10 to 100 words
   * and at most three '!'.
   */
  lemma StressAtBaseline(an: Analyzer, text: string, s: Sentiment)
    ensures StressLevel(an, text, s) == BaselineStress <==>
      && SentimentStress(s) == 0
      && CountNamed(TopTopics(an.topics, text), StressTopicNames) == 0
      && Matched(AnxietyWords, text) == []
      && 10 <= |Words(text)| <= 100
      && CountChar(text, '!') <= 3
  {
  }

  /** The loop adding one per topic whose name is a stress topic. */
  method CountStressTopics(topics: seq<Tag>) returns (n: nat)
    ensures n == CountNamed(topics, StressTopicNames)
  {
    n := 0;
    var i := 0;
    while i < |topics|
      invariant 0 <= i <= |topics|
      invariant n == CountNamed(topics[..i], StressTopicNames)
    {
      assert topics[..i + 1][..i] == topics[..i];
      if topics[i].name in StressTopicNames {
        n := n + 1;
      }
      i := i + 1;
    }
    assert topics[..i] == topics;
  }

  /** `_calculate_stress_level`: add the contributions one after another, then clamp. */
  method CalculateStressLevel(an: Analyzer, text: string, s: Sentiment) returns (stress: int)
    ensures stress == StressLevel(an, text, s)
  {
    stress := BaselineStress;
    if s.Scored? && s.polarity == Negative {
      match s.intensity
      case Strong => stress := stress + 3;
      case Moderate => stress := stress + 2;
      case Mild => stress := stress + 1;
    }
    assert stress == BaselineStress + SentimentStress(s);
    var topics := ExtractTopics(an.topics, text);
    var stressTopics := CountStressTopics(topics);
    stress := stress + stressTopics;
    var anxiety := MatchKeywords(AnxietyWords, text);
    stress := stress + Min(|anxiety|, MaxAnxietyStress);
    var words := Words(text);
    if |words| < 10 {
      stress := stress + 1;
    } else if |words| > 100 {
      stress := stress + 1;
    }
    assert stress == BaselineStress + SentimentStress(s) + stressTopics + Min(|anxiety|, MaxAnxietyStress) + LengthStress(text);
    if '!' in text && CountChar(text, '!') > 3 {
      stress := stress + 1;
    }
    assert stress == RawStress(an, text, s);
    stress := if stress < MinStress then MinStress else if stress > MaxStress then MaxStress else stress;
  }

  // ---------------------------------------------------------------------
  // Recommendations

  /**
   * The recommendations: the six the rules emit, and the single entries of
   * the too-short and the failed record.
   */
  datatype Advice = SeekHelp | Breathing | Journaling | SplitProblem | JoinGroups | KeepObserving
                  | TooShortNote | FailureNote

  /** The text shown for each recommendation. */
  function AdviceText(a: Advice): string {
    match a
    case SeekHelp => "⚠️ **Обнаружены тревожные слова.** Рекомендуется обратиться за профессиональной помощью."
    case Breathing => "🧘 **Высокий уровень стресса.** Попробуйте технику дыхания 4-7-8."
    case Journaling => "📝 **Записывайте мысли.** Ведение дневника помогает структурировать переживания."
    case SplitProblem => "💼 **Проблемы на работе/с финансами.** Попробуйте технику 'разделение проблемы на части'."
    case JoinGroups => "👥 **Чувство одиночества.** Рассмотрите возможность присоединиться к тематическим группам по интересам."
    case KeepObserving => "👍 **Продолжайте самонаблюдение.** Регулярная практика ведет к лучшему пониманию себя."
    case TooShortNote => "Текст слишком короткий для анализа"
    case FailureNote => "Произошла ошибка при анализе"
  }

  /** The position of each recommendation in the order the rules are tried. */
  function Rank(a: Advice): nat {
    match a
    case SeekHelp => 0
    case Breathing => 1
    case Journaling => 2
    case SplitProblem => 3
    case JoinGroups => 4
    case KeepObserving => 5
    case TooShortNote => 6
    case FailureNote => 7
  }

  predicate InRuleOrder(recs: seq<Advice>) {
    forall i, j :: 0 <= i < j < |recs| ==> Rank(recs[i]) < Rank(recs[j])
  }

  predicate MentionsTopic(topics: seq<Tag>, names: set<string>) {
    exists i :: 0 <= i < |topics| && topics[i].name in names
  }

  /** What the rules look at: the crisis flag, the stress level, the sentiment and the topics. */
  datatype Signals = Signals(crisis: bool, stress: int, negative: bool, workOrMoney: bool, lonely: bool)

  function SignalsOf(s: Sentiment, topics: seq<Tag>, stress: int, isCrisis: bool): Signals {
    Signals(isCrisis, stress, s.Scored? && s.polarity == Negative,
            MentionsTopic(topics, WorkFinanceTopics), MentionsTopic(topics, LonelinessTopics))
  }

  /** The condition under which each rule fires; "keep observing" is the fallback, not a rule. */
  predicate Fires(a: Advice, sig: Signals) {
    match a
    case SeekHelp => sig.crisis
    case Breathing => sig.stress >= 8
    case Journaling => sig.stress >= 6
    case SplitProblem => sig.negative && sig.workOrMoney
    case JoinGroups => sig.lonely
    case _ => false
  }

  predicate IsRule(a: Advice) {
    Rank(a) < 5
  }

  /** One rule's contribution: its advice when it fires. */
  function Try(a: Advice, sig: Signals): (r: seq<Advice>)
    ensures |r| <= 1
  {
    if Fires(a, sig) then [a] else []
  }

  /** The advice of every rule that fires, in rule order. */
  function Fired(sig: Signals): (fired: seq<Advice>)
    ensures |fired| <= 5
  {
    Try(SeekHelp, sig) + Try(Breathing, sig) + Try(Journaling, sig) + Try(SplitProblem, sig)
    + Try(JoinGroups, sig)
  }

  /** The recommendations: every rule that fires, in rule order, or else "keep observing". */
  function Recommend(sig: Signals): (recs: seq<Advice>)
    ensures recs != []
  {
    if Fired(sig) == [] then [KeepObserving] else Fired(sig)
  }

  /** Appending a later rule's advice keeps the rule order. */
  lemma AppendInOrder(x: seq<Advice>, a: Advice, sig: Signals)
    requires InRuleOrder(x)
    requires forall e :: e in x ==> Rank(e) < Rank(a)
    ensures InRuleOrder(x + Try(a, sig))
  {
    if Fires(a, sig) {
      forall i, j | 0 <= i < j < |x + [a]| ensures Rank((x + [a])[i]) < Rank((x + [a])[j]) {
        if j == |x| {
          assert (x + [a])[i] in x;
        } else {
          assert (x + [a])[i] == x[i] && (x + [a])[j] == x[j];
        }
      }
    } else {
      assert x + Try(a, sig) == x;
    }
  }

  /** One rule's advice is in the output of that rule exactly when it fires. */
  lemma TryMembers(a: Advice, b: Advice, sig: Signals)
    ensures a in Try(b, sig) <==> a == b && Fires(b, sig)
  {
  }

  /**
   * Each rule's recommendation is given exactly when the rule fires; "keep
   * observing" is given exactly when no rule fires, and then alone.
   */
  lemma RecommendRules(sig: Signals)
    ensures forall a :: IsRule(a) ==> (a in Recommend(sig) <==> Fires(a, sig))
    ensures KeepObserving in Recommend(sig) <==> forall a :: IsRule(a) ==> !Fires(a, sig)
    ensures KeepObserving in Recommend(sig) ==> Recommend(sig) == [KeepObserving]
    ensures forall a :: a in Recommend(sig) ==> IsRule(a) || a == KeepObserving
  {
    forall a ensures a in Fired(sig) <==> IsRule(a) && Fires(a, sig) {
      TryMembers(a, SeekHelp, sig);
      TryMembers(a, Breathing, sig);
      TryMembers(a, Journaling, sig);
      TryMembers(a, SplitProblem, sig);
      TryMembers(a, JoinGroups, sig);
    }
    if Fired(sig) != [] {
      assert Fired(sig)[0] in Fired(sig);
    }
  }

  /** The rules are tried in rule order. */
  lemma {:induction false} FiredInOrder(sig: Signals)
    ensures InRuleOrder(Fired(sig))
  {
    var r1 := Try(SeekHelp, sig);
    var r2 := r1 + Try(Breathing, sig);
    var r3 := r2 + Try(Journaling, sig);
    var r4 := r3 + Try(SplitProblem, sig);
    AppendInOrder([], SeekHelp, sig);
    assert [] + r1 == r1;
    AppendInOrder(r1, Breathing, sig);
    AppendInOrder(r2, Journaling, sig);
    AppendInOrder(r3, SplitProblem, sig);
    AppendInOrder(r4, JoinGroups, sig);
  }

  /** A list in rule order repeats nothing. */
  lemma {:induction false} InRuleOrderDistinct(recs: seq<Advice>)
    requires InRuleOrder(recs)
    ensures Distinct(recs)
  {
    forall i, j | 0 <= i < j < |recs| ensures recs[i] != recs[j] {
      assert Rank(recs[i]) < Rank(recs[j]);
    }
  }

  /** When the crisis rule fires its advice comes first. */
  lemma {:induction false} CrisisFirst(sig: Signals)
    requires sig.crisis
    ensures Fired(sig) != [] && Fired(sig)[0] == SeekHelp
  {
    var r1 := Try(SeekHelp, sig);
    var r2 := r1 + Try(Breathing, sig);
    var r3 := r2 + Try(Journaling, sig);
    var r4 := r3 + Try(SplitProblem, sig);
    assert r1 == [SeekHelp];
    assert r2[0] == SeekHelp;
    assert r3[0] == SeekHelp;
    assert r4[0] == SeekHelp;
    assert Fired(sig) == r4 + Try(JoinGroups, sig);
  }

  /**
   * The recommendations come in rule order, so nothing comes twice and the
   * crisis warning, when given, comes first.
   */
  lemma {:induction false} RecommendInOrder(sig: Signals)
    ensures InRuleOrder(Recommend(sig))
    ensures Distinct(Recommend(sig))
    ensures sig.crisis ==> Recommend(sig)[0] == SeekHelp
  {
    FiredInOrder(sig);
    InRuleOrderDistinct(Recommend(sig));
    if sig.crisis {
      CrisisFirst(sig);
    }
  }

  /** A stress level of 8 or more brings both the breathing and the journaling advice. */
  lemma HighStressAdvice(sig: Signals)
    requires sig.stress >= 8
    ensures Breathing in Recommend(sig) && Journaling in Recommend(sig)
    ensures KeepObserving !in Recommend(sig)
  {
    RecommendRules(sig);
    assert IsRule(Breathing) && Fires(Breathing, sig);
  }

  /** `_generate_recommendations`: try each rule in turn, then the fallback. */
  method GenerateRecommendations(s: Sentiment, topics: seq<Tag>, stress: int, isCrisis: bool)
    returns (recs: seq<Advice>)
    ensures recs == Recommend(SignalsOf(s, topics, stress, isCrisis))
  {
    ghost var sig := SignalsOf(s, topics, stress, isCrisis);
    recs := [];
    if isCrisis {
      recs := recs + [SeekHelp];
    }
    assert recs == Try(SeekHelp, sig);
    if stress >= 8 {
      recs := recs + [Breathing];
    }
    assert recs == Try(SeekHelp, sig) + Try(Breathing, sig);
    if stress >= 6 {
      recs := recs + [Journaling];
    }
    assert recs == Try(SeekHelp, sig) + Try(Breathing, sig) + Try(Journaling, sig);
    if s.Scored? && s.polarity == Negative {
      if MentionsTopic(topics, WorkFinanceTopics) {
        recs := recs + [SplitProblem];
      }
    }
    assert recs == Try(SeekHelp, sig) + Try(Breathing, sig) + Try(Journaling, sig) + Try(SplitProblem, sig);
    if MentionsTopic(topics, LonelinessTopics) {
      recs := recs + [JoinGroups];
    }
    assert recs == Fired(sig);
    if recs == [] {
      recs := recs + [KeepObserving];
    }
  }

  // ---------------------------------------------------------------------
  // The analysis record

  /** `_empty_result`: the record for inputs too short to analyze. */
  function EmptyResult(): Analysis {
    Analysis("", "", Scored(Neutral, Mild), [], BaselineStress, [], false, [], 0, [TooShortNote])
  }

  /** `_error_result`: the record that replaces a failed analysis. */
  function ErrorResult(message: string): Analysis {
    Analysis("", "", Failed(message), [], BaselineStress, [], false, [], 0, [FailureNote])
  }

  /** Whether `analyze_text` short-circuits: the input, stripped, has fewer than three characters. */
  predicate TooShort(text: string) {
    |Strip(text)| < MinTextLength
  }

  /** The full analysis of a text whose cleaned form is `cleaned`. */
  function Analyze(an: Analyzer, text: string, cleaned: string, s: Sentiment): Analysis {
    var topics := TopTopics(an.topics, cleaned);
    var stress := StressLevel(an, cleaned, s);
    var found := Matched(an.crisisKeywords, cleaned);
    Analysis(text, cleaned, s, topics, stress, Tags(an.emotions, cleaned, EmotionStep),
             found != [], found, |Words(cleaned)|, Recommend(SignalsOf(s, topics, stress, found != [])))
  }

  /** The guarantees every record returned to callers meets, whichever path produced it. */
  predicate WellFormed(a: Analysis) {
    && MinStress <= a.stressLevel <= MaxStress
    && |a.topics| <= MaxTopics
    && NonIncreasing(a.topics)
    && Distinct(TagNames(a.topics))
    && (a.isCrisis <==> a.crisisWordsFound != [])
    && a.recommendations != []
    && (a.isCrisis ==> a.recommendations[0] == SeekHelp)
  }

  /** Every path of `analyze_text` yields a well-formed record. */
  lemma AnalyzeWellFormed(an: Analyzer, text: string, cleaned: string, s: Sentiment, message: string)
    requires an.Valid()
    ensures WellFormed(Analyze(an, text, cleaned, s))
    ensures WellFormed(EmptyResult()) && WellFormed(ErrorResult(message))
  {
    var topics := TopTopics(an.topics, cleaned);
    var found := Matched(an.crisisKeywords, cleaned);
    TopTopicsDistinct(an.topics, cleaned);
    RecommendInOrder(SignalsOf(s, topics, StressLevel(an, cleaned, s), found != []));
  }

  /**
   * `analyze_text`. `fault` stands for an exception raised while analyzing
   * (by the foreign tokenizer or scorer); it turns the result into the
   * error record.
   */
  method AnalyzeText(an: Analyzer, text: string, cleaned: string, polarity: Polarity, intensity: Intensity,
                     fault: Option<string>)
    returns (a: Analysis)
    requires an.Valid()
    ensures TooShort(text) ==> a == EmptyResult()
    ensures !TooShort(text) && fault.Some? ==> a == ErrorResult(fault.value)
    ensures !TooShort(text) && fault.None? ==> a == Analyze(an, text, cleaned, Scored(polarity, intensity))
    ensures WellFormed(a)
  {
    if |Strip(text)| < MinTextLength {
      return EmptyResult();
    }
    if fault.Some? {
      return ErrorResult(fault.value);
    }
    var s := Scored(polarity, intensity);
    var topics := ExtractTopics(an.topics, cleaned);
    var stress := CalculateStressLevel(an, cleaned, s);
    var emotions := DetectEmotions(an.emotions, cleaned);
    var isCrisis, crisisWords := CheckCrisisKeywords(an.crisisKeywords, cleaned);
    var wordCount := |Words(cleaned)|;
    var recs := GenerateRecommendations(s, topics, stress, isCrisis);
    a := Analysis(text, cleaned, s, topics, stress, emotions, isCrisis, crisisWords, wordCount, recs);
    AnalyzeWellFormed(an, text, cleaned, s, "");
  }

  // ---------------------------------------------------------------------
  // Summary

  const Unavailable := "Анализ недоступен."
  const MoodPositive := "📈 **Позитивный настрой**"
  const MoodNegative := "📉 **Негативный настрой**"
  const MoodNeutral := "📊 **Нейтральный настрой**"
  const StressHigh := "🔴 **Высокий стресс:** "
  const StressRaised := "🟡 **Повышенный стресс:** "
  const StressLow := "🟢 **Низкий стресс:** "
  const StressMedium := "⚪ **Средний стресс:** "
  const OutOfTen := "/10"
  const CrisisLine := "🚨 **Обнаружены тревожные сигналы**"
  const TopicsPrefix := "🏷️ **Основные темы:** "
  /** At most this many topic names are shown. */
  const MaxShownTopics: nat := 3

  /** The first line: the mood the sentiment label indicates; a failed analysis reads as neutral. */
  function MoodLine(s: Sentiment): string {
    if s.Scored? && s.polarity == Positive then MoodPositive
    else if s.Scored? && s.polarity == Negative then MoodNegative
    else MoodNeutral
  }

  /** The stress line "<band>: n/10": 8 and up high, 6 and 7 raised, 4 and below low, 5 medium. */
  function StressLine(stress: int): string {
    var band := if stress >= 8 then StressHigh
                else if stress >= 6 then StressRaised
                else if stress <= 4 then StressLow
                else StressMedium;
    band + IntToString(stress) + OutOfTen
  }

  /** The names of the first three topics. */
  function ShownTopics(topics: seq<Tag>): (names: seq<string>)
    ensures |names| == Min(MaxShownTopics, |topics|)
    ensures forall i :: 0 <= i < |names| ==> names[i] == topics[i].name
  {
    TagNames(topics[..Min(MaxShownTopics, |topics|)])
  }

  /**
   * The summary's lines: the mood, the stress band, the first topics when
   * there are any, and the crisis line last when the flag is set.
   */
  function SummaryLines(a: Analysis): (lines: seq<string>)
    ensures 2 <= |lines| <= 4
    ensures |lines| == 2 + (if a.topics != [] then 1 else 0) + (if a.isCrisis then 1 else 0)
    ensures lines[0] == MoodLine(a.sentiment) && lines[1] == StressLine(a.stressLevel)
    ensures a.isCrisis ==> lines[|lines| - 1] == CrisisLine
  {
    [MoodLine(a.sentiment), StressLine(a.stressLevel)]
      + (if a.topics != [] then [TopicsPrefix + Join(ShownTopics(a.topics), ", ")] else [])
      + (if a.isCrisis then [CrisisLine] else [])
  }

  /**
   * The summary text: the lines joined by newlines. `None` stands for a
   * missing record or one without a `sentiment` entry.
   */
  function Summary(result: Option<Analysis>): (summary: string)
    ensures result.None? ==> summary == Unavailable
    ensures result.Some? ==> StartsWith(summary, MoodLine(result.value.sentiment))
    ensures result.Some? && result.value.isCrisis ==> EndsWith(summary, CrisisLine)
  {
    if result.None? then Unavailable else Join(SummaryLines(result.value), "\n")
  }

  /** `get_text_summary`: append the lines one by one, then join them. */
  method TextSummary(result: Option<Analysis>) returns (summary: string)
    ensures summary == Summary(result)
  {
    if result.None? {
      return Unavailable;
    }
    var a := result.value;
    var parts: seq<string> := [];
    if a.sentiment.Scored? && a.sentiment.polarity == Positive {
      parts := parts + [MoodPositive];
    } else if a.sentiment.Scored? && a.sentiment.polarity == Negative {
      parts := parts + [MoodNegative];
    } else {
      parts := parts + [MoodNeutral];
    }
    var stress := a.stressLevel;
    var band: string;
    if stress >= 8 {
      band := StressHigh;
    } else if stress >= 6 {
      band := StressRaised;
    } else if stress <= 4 {
      band := StressLow;
    } else {
      band := StressMedium;
    }
    parts := parts + [band + IntToString(stress) + OutOfTen];
    assert parts == [MoodLine(a.sentiment), StressLine(stress)];
    if a.topics != [] {
      var mainTopics := ShownTopics(a.topics);
      parts := parts + [TopicsPrefix + Join(mainTopics, ", ")];
    }
    if a.isCrisis {
      parts := parts + [CrisisLine];
    }
    assert parts == SummaryLines(a);
    summary := Join(parts, "\n");
  }

  // Each fixed piece of a line is free of newlines; one lemma per piece keeps each proof small.
  lemma PositiveSingle() ensures '\n' !in MoodPositive {}
  lemma NegativeSingle() ensures '\n' !in MoodNegative {}
  lemma NeutralSingle() ensures '\n' !in MoodNeutral {}
  lemma HighSingle() ensures '\n' !in StressHigh {}
  lemma RaisedSingle() ensures '\n' !in StressRaised {}
  lemma LowSingle() ensures '\n' !in StressLow {}
  lemma MediumSingle() ensures '\n' !in StressMedium {}
  lemma OutOfTenSingle() ensures '\n' !in OutOfTen {}
  lemma CrisisSingle() ensures '\n' !in CrisisLine {}
  lemma PrefixSingle() ensures '\n' !in TopicsPrefix {}

  lemma MoodLineSingle(s: Sentiment)
    ensures '\n' !in MoodLine(s)
  {
    if s.Scored? && s.polarity == Positive {
      PositiveSingle();
    } else if s.Scored? && s.polarity == Negative {
      NegativeSingle();
    } else {
      NeutralSingle();
    }
  }

  lemma DigitsSingle(i: int)
    ensures '\n' !in IntToString(i)
  {
    var digits := IntToString(i);
    if i >= 0 {
      assert forall k :: 0 <= k < |digits| ==> IsDigit(digits[k]);
    } else {
      var n := NatToString(-i);
      assert forall k :: 0 <= k < |n| ==> IsDigit(n[k]);
      assert digits == "-" + n;
    }
  }

  lemma StressLineSingle(stress: int)
    ensures '\n' !in StressLine(stress)
  {
    DigitsSingle(stress);
    OutOfTenSingle();
    if stress >= 8 {
      HighSingle();
    } else if stress >= 6 {
      RaisedSingle();
    } else if stress <= 4 {
      LowSingle();
    } else {
      MediumSingle();
    }
  }

  lemma TopicsLineSingle(topics: seq<Tag>)
    requires forall t :: t in topics ==> '\n' !in t.name
    ensures '\n' !in TopicsPrefix + Join(ShownTopics(topics), ", ")
  {
    var names := ShownTopics(topics);
    assert forall k :: 0 <= k < |names| ==> topics[k] in topics;
    JoinKeepsOut(names, ", ", '\n');
    PrefixSingle();
  }

  /** No line of the summary holds a newline when no shown topic name does. */
  lemma SummaryLinesSingle(a: Analysis)
    requires forall t :: t in a.topics ==> '\n' !in t.name
    ensures forall i :: 0 <= i < |SummaryLines(a)| ==> '\n' !in SummaryLines(a)[i]
  {
    MoodLineSingle(a.sentiment);
    StressLineSingle(a.stressLevel);
    var tail: seq<string> := if a.isCrisis then [CrisisLine] else [];
    assert forall i :: 0 <= i < |tail| ==> '\n' !in tail[i] by {
      CrisisSingle();
    }
    var mid: seq<string> := if a.topics != [] then [TopicsPrefix + Join(ShownTopics(a.topics), ", ")] else [];
    assert forall i :: 0 <= i < |mid| ==> '\n' !in mid[i] by {
      if a.topics != [] {
        TopicsLineSingle(a.topics);
      }
    }
    var lines := [MoodLine(a.sentiment), StressLine(a.stressLevel)] + mid + tail;
    assert lines == SummaryLines(a);
  }

  /**
   * The summary splits back into its lines: the summary read line by line is
   * the mood, the stress band, the topics and the crisis flag.
   */
  lemma SummaryRoundTrip(a: Analysis)
    requires forall t :: t in a.topics ==> '\n' !in t.name
    ensures Split(Summary(Some(a)), '\n') == SummaryLines(a)
  {
    SummaryLinesSingle(a);
    SplitJoin(SummaryLines(a), '\n');
  }
}
