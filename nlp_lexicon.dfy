/**
 * The text analyzer's fixed lexicons and the keyword machinery built on
 * them: which keywords of a list occur in a text, the per-category tags
 * (topics and emotions), and the stable ordering of topics by confidence.
 */
module NlpLexicon {
  import opened Text

  /** A lexicon category: its name and the substrings that signal it. */
  datatype Category = Category(name: string, keywords: seq<string>)

  /**
   * A detected topic or emotion. `confidence` is counted in tenths, so 10
   * stands for the analyzer's 1.0.
   */
  datatype Tag = Tag(name: string, keywordsFound: seq<string>, confidence: nat)

  /**
   * The topic lexicon, in the analyzer's declaration order. Its quirks are
   * kept: 'покидать' is listed twice under loneliness, and 'зарплата'
   * belongs to both work and finance.
   */
  const TopicLexicon: seq<Category> := [
    Category("работа", ["работа", "начальник", "коллега", "дедлайн", "проект", "офис", "зарплата",
                        "совещание", "задача", "увольнение", "карьера"]),
    Category("семья", ["семья", "родители", "дети", "муж", "жена", "брат", "сестра", "родственники",
                       "отношения", "развод", "брак", "семейный"]),
    Category("здоровье", ["здоровье", "болезнь", "боль", "врач", "больница", "лекарство", "симптом",
                          "усталость", "сон", "бессонница", "диета", "спорт"]),
    Category("финансы", ["деньги", "финансы", "долг", "кредит", "зарплата", "экономия", "траты",
                         "бюджет", "накопления", "инвестиции", "бедность"]),
    Category("учеба", ["учеба", "экзамен", "сессия", "преподаватель", "студент", "зачет", "курсовая",
                       "диплом", "лекция", "образование", "университет"]),
    Category("одиночество", ["одиночество", "одинокий", "покинутый", "изоляция", "отвергнутый",
                             "покидать", "бросить", "покидать", "нелюбимый"]),
    Category("тревога", ["тревога", "паника", "страх", "беспокойство", "нервы", "стресс", "напряжение",
                         "волнение", "испуг", "фобия"]),
    Category("депрессия", ["депрессия", "апатия", "тоска", "грусть", "безнадежность", "отчаяние",
                           "печаль", "меланхолия", "подавленность", "суицид"])
  ]

  /** The emotion lexicon, in the analyzer's declaration order. */
  const EmotionLexicon: seq<Category> := [
    Category("радость", ["рад", "счастлив", "ура", "отлично", "прекрасно", "замечательно", "восторг"]),
    Category("грусть", ["грустно", "печально", "тоскливо", "плакать", "слезы", "уныние"]),
    Category("гнев", ["злой", "сердит", "раздражен", "бесит", "ненавижу", "ярость", "возмущен"]),
    Category("страх", ["боюсь", "страшно", "испуг", "ужас", "паника", "тревога"]),
    Category("удивление", ["удивлен", "неожиданно", "ого", "вау", "невероятно", "потрясающе"]),
    Category("спокойствие", ["спокоен", "умиротворен", "тишина", "мир", "расслаблен", "гармония"])
  ]

  /** Phrases that trigger the crisis protocol, in declaration order. */
  const CrisisKeywords: seq<string> := [
    "суицид", "самоубийство", "покончить", "свести счеты", "не хочу жить",
    "все бессмысленно", "конец", "надоело жить", "устал от жизни",
    "лучше умереть", "не вижу смысла", "все плохо", "нет выхода"
  ]

  /** Confidence gained per matched keyword, in tenths: 0.3 for topics, 0.2 for emotions. */
  const TopicStep: nat := 3
  const EmotionStep: nat := 2
  /** The confidence ceiling 1.0, in tenths. */
  const MaxConfidence: nat := 10
  /** At most this many topics are reported. */
  const MaxTopics: nat := 5

  function Min(a: int, b: int): int {
    if a <= b then a else b
  }

  /** `a` can be obtained from `b` by deleting elements: it keeps `b`'s order. */
  ghost predicate IsSubsequence<T>(a: seq<T>, b: seq<T>)
    decreases |b|
  {
    if a == [] then true
    else if b == [] then false
    else (a[|a| - 1] == b[|b| - 1] && IsSubsequence(a[..|a| - 1], b[..|b| - 1]))
         || IsSubsequence(a, b[..|b| - 1])
  }

  predicate Distinct<T(==)>(s: seq<T>) {
    forall i, j :: 0 <= i < j < |s| ==> s[i] != s[j]
  }

  function TagNames(ts: seq<Tag>): (names: seq<string>) {
    seq(|ts|, i requires 0 <= i < |ts| => ts[i].name)
  }

  function CategoryNames(cs: seq<Category>): (names: seq<string>) {
    seq(|cs|, i requires 0 <= i < |cs| => cs[i].name)
  }

  /**
   * A lexicon stands for a Python dict from category name to keywords, so
   * its names are unique.
   */
  predicate UniqueNames(cs: seq<Category>) {
    Distinct(CategoryNames(cs))
  }

  /**
   * The keywords of the list that occur in `text`, in list order; a keyword
   * listed twice that occurs is reported twice.
   */
  function Matched(keywords: seq<string>, text: string): (m: seq<string>)
    ensures |m| <= |keywords|
    decreases |keywords|
  {
    if keywords == [] then []
    else
      var init, last := keywords[..|keywords| - 1], keywords[|keywords| - 1];
      var prev := Matched(init, text);
      if Contains(text, last) then prev + [last] else prev
  }

  /** Scanning one more keyword adds it when it occurs. */
  lemma MatchedStep(keywords: seq<string>, j: nat, text: string)
    requires j < |keywords|
    ensures Matched(keywords[..j + 1], text)
            == Matched(keywords[..j], text) + (if Contains(text, keywords[j]) then [keywords[j]] else [])
  {
    assert keywords[..j + 1][..j] == keywords[..j];
  }

  /** The matches come in list order. */
  lemma {:induction false} MatchedInOrder(keywords: seq<string>, text: string)
    ensures IsSubsequence(Matched(keywords, text), keywords)
    decreases |keywords|
  {
    if keywords != [] {
      var init, last := keywords[..|keywords| - 1], keywords[|keywords| - 1];
      MatchedInOrder(init, text);
      assert keywords == init + [last];
      if Contains(text, last) {
        SubsequenceSnoc(Matched(init, text), init, last);
      } else {
        SubsequenceGrow(Matched(init, text), init, last);
      }
    }
  }

  /**
   * A keyword is reported exactly when it occurs, and as many times as the
   * list holds it.
   */
  lemma {:induction false} MatchedCount(keywords: seq<string>, text: string, k: string)
    ensures multiset(Matched(keywords, text))[k] == if Contains(text, k) then multiset(keywords)[k] else 0
    ensures k in Matched(keywords, text) <==> k in keywords && Contains(text, k)
    decreases |keywords|
  {
    if keywords != [] {
      var init, last := keywords[..|keywords| - 1], keywords[|keywords| - 1];
      assert keywords == init + [last];
      MatchedCount(init, text, k);
    }
  }

  /** The tag one category yields: none when no keyword occurs. */
  function TagOf(c: Category, text: string, step: nat): (ts: seq<Tag>)
    ensures |ts| <= 1
    ensures ts == [] <==> Matched(c.keywords, text) == []
    ensures forall t :: t in ts ==> t.name == c.name && t.keywordsFound == Matched(c.keywords, text)
  {
    var found := Matched(c.keywords, text);
    if found == [] then [] else [Tag(c.name, found, Min(MaxConfidence, step * |found|))]
  }

  /**
   * One tag per category with at least one keyword in `text`, in lexicon
   * order; each tag's confidence is `step` tenths per match, at most 1.0.
   */
  function Tags(cats: seq<Category>, text: string, step: nat): (ts: seq<Tag>)
    ensures |ts| <= |cats|
    ensures forall t :: t in ts ==>
      t.keywordsFound != [] && t.confidence == Min(MaxConfidence, step * |t.keywordsFound|)
    decreases |cats|
  {
    if cats == [] then []
    else Tags(cats[..|cats| - 1], text, step) + TagOf(cats[|cats| - 1], text, step)
  }

  /** Tagging one more category adds its tag, if any. */
  lemma TagsStep(cats: seq<Category>, i: nat, text: string, step: nat)
    requires i < |cats|
    ensures Tags(cats[..i + 1], text, step) == Tags(cats[..i], text, step) + TagOf(cats[i], text, step)
    ensures var found := Matched(cats[i].keywords, text);
            Tags(cats[..i + 1], text, step)
            == Tags(cats[..i], text, step)
               + (if found == [] then [] else [Tag(cats[i].name, found, Min(MaxConfidence, |found| * step))])
  {
    assert cats[..i + 1][..i] == cats[..i];
  }

  /** Every tag reports the matches of a category of its name. */
  lemma {:induction false} TagsSound(cats: seq<Category>, text: string, step: nat)
    ensures forall t :: t in Tags(cats, text, step) ==>
      exists c :: c in cats && c.name == t.name && t.keywordsFound == Matched(c.keywords, text)
    decreases |cats|
  {
    if cats != [] {
      var init, c := cats[..|cats| - 1], cats[|cats| - 1];
      var prev := Tags(init, text, step);
      TagsSound(init, text, step);
      forall t | t in Tags(cats, text, step)
        ensures exists c' :: c' in cats && c'.name == t.name && t.keywordsFound == Matched(c'.keywords, text)
      {
        if t in prev {
          var c' :| c' in init && c'.name == t.name && t.keywordsFound == Matched(c'.keywords, text);
          var k :| 0 <= k < |init| && init[k] == c';
          assert cats[k] == c';
        } else {
          assert t in TagOf(c, text, step);
          assert cats[|cats| - 1] == c;
        }
      }
    }
  }

  /** Every category with at least one keyword in the text is tagged. */
  lemma {:induction false} TagsComplete(cats: seq<Category>, text: string, step: nat)
    ensures forall c :: c in cats && Matched(c.keywords, text) != [] ==>
      exists t :: t in Tags(cats, text, step) && t.name == c.name
    decreases |cats|
  {
    if cats != [] {
      var init, c := cats[..|cats| - 1], cats[|cats| - 1];
      var prev := Tags(init, text, step);
      var ts := Tags(cats, text, step);
      TagsComplete(init, text, step);
      forall c' | c' in cats && Matched(c'.keywords, text) != []
        ensures exists t :: t in ts && t.name == c'.name
      {
        var k :| 0 <= k < |cats| && cats[k] == c';
        if k < |init| {
          assert init[k] == c';
          var t :| t in prev && t.name == c'.name;
          assert t in ts;
        } else {
          var mine := TagOf(c, text, step);
          assert mine[0] in mine;
          assert ts[|ts| - 1] == mine[0];
        }
      }
    }
  }

  /** The names of the tags, one category at a time. */
  lemma TagNamesStep(cats: seq<Category>, text: string, step: nat)
    requires cats != []
    ensures TagNames(Tags(cats, text, step)) ==
      TagNames(Tags(cats[..|cats| - 1], text, step)) +
      (if Matched(cats[|cats| - 1].keywords, text) == [] then [] else [cats[|cats| - 1].name])
  {
    var prev := Tags(cats[..|cats| - 1], text, step);
    var mine := TagOf(cats[|cats| - 1], text, step);
    assert Tags(cats, text, step) == prev + mine;
    TagNamesAppend(prev, mine);
    if mine != [] {
      assert mine[0] in mine;
    }
  }

  lemma TagNamesAppend(a: seq<Tag>, b: seq<Tag>)
    ensures TagNames(a + b) == TagNames(a) + TagNames(b)
  {
  }

  /** The category names, one category at a time. */
  lemma CategoryNamesSnoc(cats: seq<Category>)
    requires cats != []
    ensures CategoryNames(cats) == CategoryNames(cats[..|cats| - 1]) + [cats[|cats| - 1].name]
  {
  }

  /** Keeping order when both sequences grow by the same element. */
  lemma SubsequenceSnoc<T>(a: seq<T>, b: seq<T>, x: T)
    requires IsSubsequence(a, b)
    ensures IsSubsequence(a + [x], b + [x])
  {
    assert (a + [x])[..|a|] == a && (b + [x])[..|b|] == b;
  }

  /** Keeping order when only the longer sequence grows. */
  lemma SubsequenceGrow<T>(a: seq<T>, b: seq<T>, y: T)
    requires IsSubsequence(a, b)
    ensures IsSubsequence(a, b + [y])
  {
    assert (b + [y])[..|b|] == b;
  }

  /** Tags come in lexicon order. */
  lemma {:induction false} TagsInLexiconOrder(cats: seq<Category>, text: string, step: nat)
    ensures IsSubsequence(TagNames(Tags(cats, text, step)), CategoryNames(cats))
    decreases |cats|
  {
    if cats != [] {
      var init, c := cats[..|cats| - 1], cats[|cats| - 1];
      TagsInLexiconOrder(init, text, step);
      TagNamesStep(cats, text, step);
      var prevNames := TagNames(Tags(init, text, step));
      CategoryNamesSnoc(cats);
      if Matched(c.keywords, text) == [] {
        assert prevNames + [] == prevNames;
        SubsequenceGrow(prevNames, CategoryNames(init), c.name);
      } else {
        SubsequenceSnoc(prevNames, CategoryNames(init), c.name);
      }
    }
  }

  /** Every tag is named after a category. */
  lemma {:induction false} TagNamesFrom(cats: seq<Category>, text: string, step: nat)
    ensures forall n :: n in TagNames(Tags(cats, text, step)) ==> n in CategoryNames(cats)
    decreases |cats|
  {
    if cats != [] {
      var init, c := cats[..|cats| - 1], cats[|cats| - 1];
      TagNamesFrom(init, text, step);
      TagNamesStep(cats, text, step);
      CategoryNamesSnoc(cats);
    }
  }

  /** Appending a new element keeps a sequence free of repeats. */
  lemma DistinctSnoc<T>(s: seq<T>, x: T)
    requires Distinct(s) && x !in s
    ensures Distinct(s + [x])
  {
    var r := s + [x];
    forall i, j | 0 <= i < j < |r| ensures r[i] != r[j] {
      assert r[i] == s[i];
      if j < |s| {
        assert r[j] == s[j];
      }
    }
  }

  /** Distinct category names give distinct tag names. */
  lemma {:induction false} TagNamesDistinct(cats: seq<Category>, text: string, step: nat)
    requires Distinct(CategoryNames(cats))
    ensures Distinct(TagNames(Tags(cats, text, step)))
    decreases |cats|
  {
    if cats != [] {
      var init, c := cats[..|cats| - 1], cats[|cats| - 1];
      var catNames := CategoryNames(cats);
      assert CategoryNames(init) == catNames[..|cats| - 1];
      TagNamesDistinct(init, text, step);
      TagNamesFrom(init, text, step);
      TagNamesStep(cats, text, step);
      var prevNames := TagNames(Tags(init, text, step));
      if Matched(c.keywords, text) == [] {
        assert prevNames + [] == prevNames;
      } else {
        assert c.name !in CategoryNames(init) by {
          forall k | 0 <= k < |init| ensures CategoryNames(init)[k] != c.name {
            assert catNames[k] != catNames[|cats| - 1];
          }
        }
        DistinctSnoc(prevNames, c.name);
      }
    }
  }

  predicate NonIncreasing(ts: seq<Tag>) {
    forall i, j :: 0 <= i < j < |ts| ==> ts[i].confidence >= ts[j].confidence
  }

  /** The entries of `ts` whose confidence is `c`, in their order in `ts`. */
  function Bucket(ts: seq<Tag>, c: nat): (b: seq<Tag>)
    ensures forall t :: t in b ==> t in ts && t.confidence == c
  {
    if ts == [] then [] else (if ts[0].confidence == c then [ts[0]] else []) + Bucket(ts[1..], c)
  }

  /** A class no entry belongs to is empty. */
  lemma {:induction false} BucketNone(ts: seq<Tag>, c: nat)
    requires forall t :: t in ts ==> t.confidence != c
    ensures Bucket(ts, c) == []
  {
    if ts != [] {
      assert ts[0] in ts;
      assert forall t :: t in ts[1..] ==> t in ts;
      BucketNone(ts[1..], c);
    }
  }

  lemma AppendAssoc<T>(a: seq<T>, b: seq<T>, c: seq<T>)
    ensures (a + b) + c == a + (b + c)
  {
  }

  lemma {:induction false} BucketAppend(a: seq<Tag>, b: seq<Tag>, c: nat)
    ensures Bucket(a + b, c) == Bucket(a, c) + Bucket(b, c)
  {
    if a == [] {
      assert a + b == b;
    } else {
      assert (a + b)[0] == a[0];
      assert (a + b)[1..] == a[1..] + b;
      BucketAppend(a[1..], b, c);
      var h := if a[0].confidence == c then [a[0]] else [];
      AppendAssoc(h, Bucket(a[1..], c), Bucket(b, c));
    }
  }

  /**
   * Insert `t` into a list sorted by non-increasing confidence, after every
   * entry whose confidence is at least its own.
   */
  function Insert(t: Tag, ts: seq<Tag>): (r: seq<Tag>)
    ensures multiset(r) == multiset(ts) + multiset{t}
    ensures forall x :: x in r <==> x == t || x in ts
    decreases |ts|
  {
    if ts == [] then [t]
    else if ts[0].confidence >= t.confidence then
      assert ts == [ts[0]] + ts[1..];
      [ts[0]] + Insert(t, ts[1..])
    else [t] + ts
  }

  /** A sorted list stays sorted under a new head that is at least every entry. */
  lemma ConsSorted(h: Tag, ts: seq<Tag>)
    requires NonIncreasing(ts)
    requires forall x :: x in ts ==> x.confidence <= h.confidence
    ensures NonIncreasing([h] + ts)
  {
    var r := [h] + ts;
    forall i, j | 0 <= i < j < |r| ensures r[i].confidence >= r[j].confidence {
      assert r[j] == ts[j - 1];
      if i > 0 {
        assert r[i] == ts[i - 1];
      }
    }
  }

  /** The head of a sorted list is at least every entry. */
  lemma HeadIsMax(ts: seq<Tag>)
    requires NonIncreasing(ts) && ts != []
    ensures forall x :: x in ts ==> x.confidence <= ts[0].confidence
  {
  }

  /** Inserting into a list sorted by non-increasing confidence keeps it sorted. */
  lemma {:induction false} InsertSorted(t: Tag, ts: seq<Tag>)
    requires NonIncreasing(ts)
    ensures NonIncreasing(Insert(t, ts))
    decreases |ts|
  {
    if ts != [] {
      HeadIsMax(ts);
      if ts[0].confidence >= t.confidence {
        assert forall x :: x in ts[1..] ==> x in ts;
        InsertSorted(t, ts[1..]);
        ConsSorted(ts[0], Insert(t, ts[1..]));
      } else {
        ConsSorted(t, ts);
      }
    }
  }

  /** Inserting keeps every other confidence class as it was and puts `t` last in its own. */
  lemma {:induction false} InsertBucket(t: Tag, ts: seq<Tag>, c: nat)
    requires NonIncreasing(ts)
    ensures Bucket(Insert(t, ts), c) == Bucket(ts, c) + (if t.confidence == c then [t] else [])
    decreases |ts|
  {
    if ts == [] {
      assert Insert(t, ts) == [t];
      assert Bucket([t], c) == (if t.confidence == c then [t] else []) + Bucket([], c);
    } else if ts[0].confidence >= t.confidence {
      assert NonIncreasing(ts[1..]);
      InsertBucket(t, ts[1..], c);
      BucketBehindHead(t, ts, c);
    } else {
      BucketInFront(t, ts, c);
    }
  }

  /** The step of `InsertBucket` where `t` goes behind the head. */
  lemma BucketBehindHead(t: Tag, ts: seq<Tag>, c: nat)
    requires ts != [] && ts[0].confidence >= t.confidence
    requires Bucket(Insert(t, ts[1..]), c) == Bucket(ts[1..], c) + (if t.confidence == c then [t] else [])
    ensures Bucket(Insert(t, ts), c) == Bucket(ts, c) + (if t.confidence == c then [t] else [])
  {
    var mine := if t.confidence == c then [t] else [];
    var rest := Insert(t, ts[1..]);
    var h := if ts[0].confidence == c then [ts[0]] else [];
    assert Insert(t, ts) == [ts[0]] + rest;
    assert ([ts[0]] + rest)[1..] == rest;
    assert Bucket([ts[0]] + rest, c) == h + Bucket(rest, c);
    assert Bucket(ts, c) == h + Bucket(ts[1..], c);
    AppendAssoc(h, Bucket(ts[1..], c), mine);
  }

  /** The step of `InsertBucket` where `t` goes in front of every entry. */
  lemma BucketInFront(t: Tag, ts: seq<Tag>, c: nat)
    requires NonIncreasing(ts) && ts != [] && ts[0].confidence < t.confidence
    ensures Bucket(Insert(t, ts), c) == Bucket(ts, c) + (if t.confidence == c then [t] else [])
  {
    var mine := if t.confidence == c then [t] else [];
    assert Insert(t, ts) == [t] + ts;
    assert ([t] + ts)[1..] == ts;
    assert Bucket([t] + ts, c) == mine + Bucket(ts, c);
    if t.confidence == c {
      HeadIsMax(ts);
      BucketNone(ts, c);
    } else {
      assert mine == [];
    }
  }

  /** A head whose name is new keeps the names distinct. */
  lemma ConsDistinctNames(h: Tag, ts: seq<Tag>)
    requires Distinct(TagNames(ts))
    requires forall k :: 0 <= k < |ts| ==> ts[k].name != h.name
    ensures Distinct(TagNames([h] + ts))
  {
    var r := [h] + ts;
    forall i, j | 0 <= i < j < |r| ensures TagNames(r)[i] != TagNames(r)[j] {
      assert TagNames(r)[j] == TagNames(ts)[j - 1];
      if i > 0 {
        assert TagNames(r)[i] == TagNames(ts)[i - 1];
      }
    }
  }

  /** Inserting a tag whose name is new keeps the names distinct. */
  lemma {:induction false} InsertDistinct(t: Tag, ts: seq<Tag>)
    requires Distinct(TagNames(ts)) && t.name !in TagNames(ts)
    ensures Distinct(TagNames(Insert(t, ts)))
    decreases |ts|
  {
    if ts == [] {
      assert Insert(t, ts) == [t];
    } else {
      var names := TagNames(ts);
      assert TagNames(ts[1..]) == names[1..];
      if ts[0].confidence >= t.confidence {
        InsertDistinct(t, ts[1..]);
        var rest := Insert(t, ts[1..]);
        forall k | 0 <= k < |rest| ensures rest[k].name != ts[0].name {
          var x := rest[k];
          assert x in rest;
          if x == t {
            assert names[0] == ts[0].name;
          } else {
            var m :| 0 <= m < |ts[1..]| && ts[1..][m] == x;
            assert names[m + 1] == x.name && names[0] == ts[0].name;
          }
        }
        ConsDistinctNames(ts[0], rest);
      } else {
        forall k | 0 <= k < |ts| ensures ts[k].name != t.name {
          assert names[k] == ts[k].name;
        }
        ConsDistinctNames(t, ts);
      }
    }
  }

  /**
   * Python's `list.sort(key=confidence, reverse=True)`, which is stable,
   * written as an insertion sort that takes the entries in list order.
   */
  function SortByConfidence(ts: seq<Tag>): (r: seq<Tag>)
    ensures multiset(r) == multiset(ts)
    ensures NonIncreasing(r)
    decreases |ts|
  {
    if ts == [] then []
    else
      assert ts == ts[..|ts| - 1] + [ts[|ts| - 1]];
      var sorted := SortByConfidence(ts[..|ts| - 1]);
      InsertSorted(ts[|ts| - 1], sorted);
      Insert(ts[|ts| - 1], sorted)
  }

  /**
   * The sort is stable: the entries of each confidence class keep their
   * relative order. With `NonIncreasing` this pins the result down.
   */
  lemma {:induction false} SortStable(ts: seq<Tag>, c: nat)
    ensures Bucket(SortByConfidence(ts), c) == Bucket(ts, c)
    decreases |ts|
  {
    if ts != [] {
      var init, last := ts[..|ts| - 1], ts[|ts| - 1];
      var mine := if last.confidence == c then [last] else [];
      calc {
        Bucket(SortByConfidence(ts), c);
        Bucket(Insert(last, SortByConfidence(init)), c);
        { InsertBucket(last, SortByConfidence(init), c); }
        Bucket(SortByConfidence(init), c) + mine;
        { SortStable(init, c); }
        Bucket(init, c) + mine;
        { assert [last][1..] == []; }
        Bucket(init, c) + Bucket([last], c);
        { BucketAppend(init, [last], c); }
        Bucket(init + [last], c);
        { assert init + [last] == ts; }
        Bucket(ts, c);
      }
    }
  }

  /** Sorting keeps the names distinct. */
  lemma {:induction false} SortDistinct(ts: seq<Tag>)
    requires Distinct(TagNames(ts))
    ensures Distinct(TagNames(SortByConfidence(ts)))
    decreases |ts|
  {
    if ts != [] {
      var init, last := ts[..|ts| - 1], ts[|ts| - 1];
      assert TagNames(init) == TagNames(ts)[..|ts| - 1];
      SortDistinct(init);
      var sorted := SortByConfidence(init);
      forall k | 0 <= k < |sorted| ensures TagNames(sorted)[k] != last.name {
        assert sorted[k] in multiset(init);
        var m :| 0 <= m < |init| && init[m] == sorted[k];
        assert TagNames(ts)[m] != TagNames(ts)[|ts| - 1];
      }
      InsertDistinct(last, sorted);
    }
  }

  /** Both lexicons have unique category names, as dict keys do. */
  lemma LexiconsUnique()
    ensures UniqueNames(TopicLexicon) && UniqueNames(EmotionLexicon)
  {
  }
}
