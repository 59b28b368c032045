/**
 * The bot's small helpers: mood-score validation, text truncation, the mood
 * emoji scale, chunking buttons into keyboard rows, dotted-path lookup in
 * nested dictionaries, the "time ago" phrase and the per-user rate limiter.
 */
module Utils {
  import opened Wrappers
  import opened Text

  // ---------------------------------------------------------------------
  // validate_mood_score

  /** The mood scale runs from 1 to 10. */
  const MinMood: int := 1
  const MaxMood: int := 10

  /**
   * `validate_mood_score`. `parsed` is what `int(score)` yields, `None`
   * when it raises `ValueError` or `TypeError`.
   */
  function ValidateMoodScore(parsed: Option<int>): (r: Option<int>)
    ensures r.Some? <==> parsed.Some? && MinMood <= parsed.value <= MaxMood
    ensures r.Some? ==> r == parsed
  {
    if parsed.Some? && MinMood <= parsed.value <= MaxMood then parsed else None
  }

  // ---------------------------------------------------------------------
  // truncate_text

  /** Python's `s[:end]`: a negative end counts from the back of the string. */
  function SliceTo(s: string, end: int): (r: string)
    ensures 0 <= end <= |s| ==> r == s[..end]
    ensures end > |s| ==> r == s
    ensures end < 0 ==> r == s[..if |s| + end < 0 then 0 else |s| + end]
  {
    if end >= 0 then s[..if end <= |s| then end else |s|]
    else if |s| + end >= 0 then s[..|s| + end]
    else []
  }

  const Ellipsis := "..."

  /** `truncate_text`: cut the text to `maxLength` characters, the last three being "...". */
  function TruncateText(text: string, maxLength: int): (r: string)
    ensures |text| <= maxLength ==> r == text
    ensures |text| > maxLength ==> EndsWith(r, Ellipsis)
    ensures |text| > maxLength && maxLength >= 3 ==>
      |r| == maxLength && r[..maxLength - 3] == text[..maxLength - 3]
    ensures |r| <= if maxLength >= 3 then maxLength else |text| + 3
  {
    if |text| <= maxLength then text
    else
      var r := SliceTo(text, maxLength - 3) + Ellipsis;
      assert r[|r| - 3..] == Ellipsis;
      r
  }

  /**
   * Below a maximum of three the negative slice end keeps most of the text:
   * the result can be longer than the maximum.
   */
  lemma TruncateShortMaximum()
    ensures TruncateText("abcdef", 2) == "abcde..."
    ensures |TruncateText("abcdef", 2)| > 2
  {
    assert SliceTo("abcdef", -1) == "abcde";
  }

  // ---------------------------------------------------------------------
  // get_mood_emoji

  /** The emoji the bot uses, from the saddest to the happiest. */
  const MoodScale: seq<string> := ["😭", "😢", "😔", "😕", "😐", "🙂", "😊", "😍"]

  /** `get_mood_emoji`: a step function of the score. */
  function MoodEmoji(score: int): (e: string)
    ensures e in MoodScale
    ensures score >= 9 ==> e == "😍"
    ensures score <= 1 ==> e == "😭"
  {
    if score >= 9 then "😍"
    else if score >= 8 then "😊"
    else if score >= 7 then "🙂"
    else if score >= 5 then "😐"
    else if score >= 4 then "😕"
    else if score >= 3 then "😔"
    else if score >= 2 then "😢"
    else "😭"
  }

  /** How happy an emoji of the scale is: its position in `MoodScale`. */
  function Happiness(e: string): (h: nat)
    requires e in MoodScale
    ensures h < |MoodScale| && MoodScale[h] == e
  {
    var i :| 0 <= i < |MoodScale| && MoodScale[i] == e;
    MoodScaleDistinct(i);
    i
  }

  lemma MoodScaleDistinct(i: nat)
    requires i < |MoodScale|
    ensures forall j :: 0 <= j < |MoodScale| && MoodScale[j] == MoodScale[i] ==> j == i
  {
    assert forall j :: 0 <= j < |MoodScale| ==> |MoodScale[j]| == 1;
    assert forall j, k :: 0 <= j < k < |MoodScale| ==> MoodScale[j][0] != MoodScale[k][0];
  }

  /** A higher score never gets a sadder emoji. */
  lemma MoodEmojiMonotone(a: int, b: int)
    requires a <= b
    ensures Happiness(MoodEmoji(a)) <= Happiness(MoodEmoji(b))
  {
  }

  // ---------------------------------------------------------------------
  // create_keyboard

  function Flatten<T>(rows: seq<seq<T>>): (r: seq<T>)
  {
    if rows == [] then [] else Flatten(rows[..|rows| - 1]) + rows[|rows| - 1]
  }

  function Abs(x: int): nat {
    if x < 0 then -x else x
  }

  /** Euclidean division is unique: a quotient and remainder in range are the ones `/` and `%` give. */
  lemma ModUnique(m: int, k: int, d: int, r: int)
    requires k != 0 && m == k * d + r && 0 <= r < Abs(k)
    ensures m % k == r
  {
    var d', r' := m / k, m % k;
    assert m == k * d' + r' && 0 <= r' < Abs(k);
    var e := d - d';
    assert k * e == r' - r by {
      assert k * d - k * d' == k * (d - d');
    }
  }

  /** `q * |k| + r` is a multiple of `k` for `0 < r <= |k|` only when `r == |k|`. */
  lemma NextIsMultiple(q: nat, r: int, k: int)
    requires k != 0 && 0 < r <= Abs(k)
    ensures (q * Abs(k) + r) % k == 0 <==> r == Abs(k)
  {
    var m := q * Abs(k) + r;
    var s := if k > 0 then 1 else -1;
    assert Abs(k) == k * s;
    if r == Abs(k) {
      assert m == k * (s * (q + 1)) + 0 by {
        assert m == Abs(k) * (q + 1);
        assert k * s * (q + 1) == k * (s * (q + 1));
      }
      ModUnique(m, k, s * (q + 1), 0);
    } else {
      assert m == k * (s * q) + r by {
        assert q * Abs(k) == k * s * q;
        assert k * s * q == k * (s * q);
      }
      ModUnique(m, k, s * q, r);
    }
  }

  /**
   * `create_keyboard`: chunk the buttons into rows of `columns` items (of
   * `|columns|` items for a negative count, as Python's `%` decides). A zero
   * column count with at least one button raises `ZeroDivisionError`, which
   * is `None` here.
   */
  method CreateKeyboard<T>(buttons: seq<T>, columns: int) returns (keyboard: Option<seq<seq<T>>>)
    ensures keyboard.None? <==> columns == 0 && buttons != []
    ensures keyboard.Some? ==> Flatten(keyboard.value) == buttons
    ensures keyboard.Some? ==> forall i :: 0 <= i < |keyboard.value| - 1 ==> |keyboard.value[i]| == Abs(columns)
    ensures keyboard.Some? && keyboard.value != [] ==>
      0 < |keyboard.value[|keyboard.value| - 1]| <= Abs(columns)
    ensures keyboard.Some? ==> (keyboard.value == [] <==> buttons == [])
  {
    if buttons == [] {
      return Some([]);
    }
    if columns == 0 {
      return None;
    }
    var rows: seq<seq<T>> := [];
    var row: seq<T> := [];
    var i := 0;
    while i < |buttons|
      invariant 0 <= i <= |buttons|
      invariant Flatten(rows) + row == buttons[..i]
      invariant forall j :: 0 <= j < |rows| ==> |rows[j]| == Abs(columns)
      invariant |row| < Abs(columns)
      invariant i == |rows| * Abs(columns) + |row|
      invariant i > 0 ==> rows != [] || row != []
    {
      row := row + [buttons[i]];
      NextIsMultiple(|rows|, |row|, columns);
      assert i + 1 == |rows| * Abs(columns) + |row|;
      if (i + 1) % columns == 0 {
        assert Flatten(rows + [row]) == Flatten(rows) + row by {
          assert (rows + [row])[..|rows|] == rows;
        }
        assert (|rows| + 1) * Abs(columns) == |rows| * Abs(columns) + Abs(columns);
        rows := rows + [row];
        row := [];
      }
      assert buttons[..i + 1] == buttons[..i] + [buttons[i]];
      i := i + 1;
    }
    if row != [] {
      assert Flatten(rows + [row]) == Flatten(rows) + row by {
        assert (rows + [row])[..|rows|] == rows;
      }
      rows := rows + [row];
    }
    assert buttons[..i] == buttons;
    keyboard := Some(rows);
  }

  // ---------------------------------------------------------------------
  // safe_get

  /** A JSON-like value: a dictionary with string keys, or any other value. */
  datatype Value = Dict(entries: map<string, Value>) | Other(repr: string)

  /** The value reached by following `path` key by key, if every key is there. */
  function Lookup(v: Value, path: seq<string>): Option<Value>
    decreases |path|
  {
    if path == [] then Some(v)
    else if v.Dict? && path[0] in v.entries then Lookup(v.entries[path[0]], path[1..])
    else None
  }

  /** Following a path in two stretches is following it at once. */
  lemma {:induction false} LookupAppend(v: Value, p: seq<string>, q: seq<string>)
    ensures Lookup(v, p + q) == if Lookup(v, p).Some? then Lookup(Lookup(v, p).value, q) else None
    decreases |p|
  {
    if p == [] {
      assert p + q == q;
    } else {
      assert (p + q)[0] == p[0] && (p + q)[1..] == p[1..] + q;
      if v.Dict? && p[0] in v.entries {
        LookupAppend(v.entries[p[0]], p[1..], q);
      }
    }
  }

  /** The lookup fails exactly at the first key missing, or under a value that is not a dictionary. */
  lemma {:induction false} LookupFails(v: Value, path: seq<string>)
    ensures Lookup(v, path).None? <==>
      exists i :: 0 <= i < |path| && Lookup(v, path[..i]).Some?
        && !(Lookup(v, path[..i]).value.Dict? && path[i] in Lookup(v, path[..i]).value.entries)
    decreases |path|
  {
    if path != [] {
      assert path[..0] == [];
      if v.Dict? && path[0] in v.entries {
        var w := v.entries[path[0]];
        LookupFails(w, path[1..]);
        forall i | 1 <= i <= |path| ensures Lookup(v, path[..i]) == Lookup(w, path[1..][..i - 1]) {
          assert path[..i][0] == path[0] && path[..i][1..] == path[1..][..i - 1];
        }
        if Lookup(v, path).None? {
          var j :| 0 <= j < |path[1..]| && Lookup(w, path[1..][..j]).Some?
            && !(Lookup(w, path[1..][..j]).value.Dict? && path[1..][j] in Lookup(w, path[1..][..j]).value.entries);
          assert path[j + 1] == path[1..][j];
          assert Lookup(v, path[..j + 1]) == Lookup(w, path[1..][..j]);
        } else {
          forall i | 0 <= i < |path| && Lookup(v, path[..i]).Some?
            ensures Lookup(v, path[..i]).value.Dict? && path[i] in Lookup(v, path[..i]).value.entries
          {
            if i > 0 {
              assert path[i] == path[1..][i - 1];
              assert Lookup(v, path[..i]) == Lookup(w, path[1..][..i - 1]);
            }
          }
        }
      }
    }
  }

  /**
   * `safe_get`: split the dotted path and walk down the dictionaries,
   * returning `default` as soon as a key is missing or a value on the way
   * is not a dictionary.
   */
  method SafeGet(data: Value, keys: string, default: Value) returns (r: Value)
    ensures Lookup(data, Split(keys, '.')).Some? ==> r == Lookup(data, Split(keys, '.')).value
    ensures Lookup(data, Split(keys, '.')).None? ==> r == default
  {
    var keysList := Split(keys, '.');
    var current := data;
    var i := 0;
    while i < |keysList|
      invariant 0 <= i <= |keysList|
      invariant Lookup(data, keysList) == Lookup(current, keysList[i..])
    {
      var key := keysList[i];
      assert keysList[i..][0] == key && keysList[i..][1..] == keysList[i + 1..];
      if current.Dict? && key in current.entries {
        current := current.entries[key];
      } else {
        return default;
      }
      i := i + 1;
    }
    r := current;
  }

  // ---------------------------------------------------------------------
  // get_time_ago

  const SecondsPerDay: int := 86400
  const DaysPerYear: int := 365
  const DaysPerMonth: int := 30
  const SecondsPerHour: int := 3600
  const SecondsPerMinute: int := 60

  /** How the elapsed time is reported: the coarsest unit that applies, or "just now". */
  datatype Elapsed = Years(n: int) | Months(n: int) | Days(n: int) | Hours(n: int) | Minutes(n: int) | JustNow

  /**
   * The bucket of a `timedelta` of `days` days and `seconds` seconds
   * (`0 <= seconds < 86400`, the normal form Python keeps). Units are
   * counted down with floor division: a year is 365 days, a month 30.
   */
  function ElapsedOf(days: int, seconds: int): (e: Elapsed)
    requires 0 <= seconds < SecondsPerDay
    ensures e.Years? ==> days > DaysPerYear && e.n >= 1 && e.n * DaysPerYear <= days < (e.n + 1) * DaysPerYear
    ensures e.Months? ==>
      DaysPerMonth < days <= DaysPerYear && 1 <= e.n <= 12 && e.n * DaysPerMonth <= days < (e.n + 1) * DaysPerMonth
    ensures e.Days? ==> 0 < days <= DaysPerMonth && e.n == days
    ensures e.Hours? ==>
      days <= 0 && seconds > SecondsPerHour && 1 <= e.n <= 23 && e.n * SecondsPerHour <= seconds < (e.n + 1) * SecondsPerHour
    ensures e.Minutes? ==>
      days <= 0 && SecondsPerMinute < seconds <= SecondsPerHour && 1 <= e.n <= 60
      && e.n * SecondsPerMinute <= seconds < (e.n + 1) * SecondsPerMinute
    ensures e.JustNow? <==> days <= 0 && seconds <= SecondsPerMinute
  {
    if days > DaysPerYear then Years(days / DaysPerYear)
    else if days > DaysPerMonth then Months(days / DaysPerMonth)
    else if days > 0 then Days(days)
    else if seconds > SecondsPerHour then Hours(seconds / SecondsPerHour)
    else if seconds > SecondsPerMinute then Minutes(seconds / SecondsPerMinute)
    else JustNow
  }

  /** The Russian phrase for a bucket; singular forms only for exactly one year, month or hour. */
  function Phrase(e: Elapsed): string {
    match e
    case Years(n) => IntToString(n) + (if n == 1 then " год назад" else " лет назад")
    case Months(n) => IntToString(n) + (if n == 1 then " месяц назад" else " месяцев назад")
    case Days(n) => IntToString(n) + " дней назад"
    case Hours(n) => IntToString(n) + (if n == 1 then " час назад" else " часов назад")
    case Minutes(n) => IntToString(n) + " минут назад"
    case JustNow => "только что"
  }

  const JustNowPhrase := "только что"

  /** `get_time_ago`, with the difference `now - dt` given as days and seconds. */
  function TimeAgo(days: int, seconds: int): (r: string)
    requires 0 <= seconds < SecondsPerDay
    ensures r == JustNowPhrase <==> days <= 0 && seconds <= SecondsPerMinute
  {
    var e := ElapsedOf(days, seconds);
    if e.JustNow? then Phrase(e)
    else
      PhraseStartsWithCount(e);
      Phrase(e)
  }

  /** Every phrase but "just now" opens with the count, so it is never "just now". */
  lemma PhraseStartsWithCount(e: Elapsed)
    requires !e.JustNow? && e.n >= 1
    ensures StartsWith(Phrase(e), NatToString(e.n))
    ensures Phrase(e) != JustNowPhrase
  {
    var digits := NatToString(e.n);
    var r := Phrase(e);
    assert r[..|digits|] == digits;
    assert IsDigit(r[0]);
    assert !IsDigit(JustNowPhrase[0]);
  }

  // ---------------------------------------------------------------------
  // RateLimiter

  /** The request times of `times` that are still inside the window ending at `now`. */
  function Recent(times: seq<int>, now: int, period: int): (r: seq<int>)
    ensures |r| <= |times|
    ensures forall t :: t in r <==> t in times && t > now - period
  {
    if times == [] then []
    else
      var prev := Recent(times[..|times| - 1], now, period);
      var last := times[|times| - 1];
      assert times == times[..|times| - 1] + [last];
      if last > now - period then prev + [last] else prev
  }

  /** Pruning twice at the same moment is pruning once. */
  lemma {:induction false} RecentIdempotent(times: seq<int>, now: int, period: int)
    ensures Recent(Recent(times, now, period), now, period) == Recent(times, now, period)
    decreases |times|
  {
    if times != [] {
      var init, last := times[..|times| - 1], times[|times| - 1];
      RecentIdempotent(init, now, period);
      var prev := Recent(init, now, period);
      if last > now - period {
        assert (prev + [last])[..|prev|] == prev;
      }
    }
  }

  /**
   * A per-user sliding-window counter: at most `maxRequests` requests per
   * user in any `period` seconds. Times are whole seconds, passed in.
   */
  class RateLimiter {
    var maxRequests: int
    var period: int
    var requests: map<int, seq<int>>

    /** No stored list is longer than the limit allows. */
    predicate Valid()
      reads this
    {
      forall u :: u in requests ==> |requests[u]| <= (if maxRequests < 0 then 0 else maxRequests)
    }

    /** The window's content for a user, known or not. */
    function Stored(userId: int): seq<int>
      reads this
    {
      if userId in requests then requests[userId] else []
    }

    constructor(maxRequests: int, period: int)
      ensures this.maxRequests == maxRequests && this.period == period
      ensures requests == map[]
      ensures Valid()
    {
      this.maxRequests := maxRequests;
      this.period := period;
      requests := map[];
    }

    /** `get_remaining`: how many more requests the user may make now. */
    function Remaining(userId: int, now: int): (n: int)
      reads this
      ensures userId !in requests ==> n == maxRequests
      ensures userId in requests ==> n == if maxRequests - |Recent(requests[userId], now, period)| < 0 then 0
                                         else maxRequests - |Recent(requests[userId], now, period)|
      ensures maxRequests >= 0 ==> 0 <= n <= maxRequests
    {
      if userId !in requests then maxRequests
      else
        var valid := Recent(requests[userId], now, period);
        if maxRequests - |valid| < 0 then 0 else maxRequests - |valid|
    }

    /**
     * `check_limit`: prune the user's requests that left the window, refuse
     * when the limit is reached, and otherwise record this one.
     */
    method CheckLimit(userId: int, now: int) returns (allowed: bool)
      requires Valid()
      modifies this
      ensures Valid()
      ensures maxRequests == old(maxRequests) && period == old(period)
      ensures allowed <==> |Recent(old(Stored(userId)), now, period)| < maxRequests
      ensures allowed <==> old(Remaining(userId, now)) > 0
      ensures requests == old(requests)[userId := Recent(old(Stored(userId)), now, period) + (if allowed then [now] else [])]
      ensures |requests[userId]| <= (if maxRequests < 0 then 0 else maxRequests)
    {
      if userId !in requests {
        requests := requests[userId := []];
      }
      var kept := Recent(requests[userId], now, period);
      requests := requests[userId := kept];
      assert requests == old(requests)[userId := kept];
      if |requests[userId]| >= maxRequests {
        assert kept + [] == kept;
        return false;
      }
      requests := requests[userId := requests[userId] + [now]];
      return true;
    }
  }

  /**
   * A request just recorded at `now` stays in the window: pruning the list
   * again at the same moment keeps it whole, the new request included.
   */
  lemma RecordedStaysRecent(times: seq<int>, now: int, period: int)
    requires period > 0
    ensures Recent(Recent(times, now, period) + [now], now, period) == Recent(times, now, period) + [now]
  {
    var kept := Recent(times, now, period);
    RecentIdempotent(times, now, period);
    var xs := kept + [now];
    assert xs[..|xs| - 1] == kept;
  }
}
