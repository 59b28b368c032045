/**
 * The Python string operations the bot relies on, over `seq<char>`
 * (one `char` per Unicode code point, as Python's `str` counts them):
 * the substring test `p in s`, `str.replace`, `str.count`, `str.strip`,
 * `str.split`, `sep.join`, `str.lower` and `str(n)`.
 */
module Text {

  predicate StartsWith(s: string, p: string) {
    |p| <= |s| && s[..|p|] == p
  }

  predicate EndsWith(s: string, p: string) {
    |p| <= |s| && s[|s| - |p|..] == p
  }

  /** Python's substring test `p in s`. */
  predicate Contains(s: string, p: string)
    decreases |s|
  {
    StartsWith(s, p) || (|s| > 0 && Contains(s[1..], p))
  }

  /** `Contains` holds exactly when `p` occurs at some position of `s`. */
  lemma {:induction false} ContainsIffOccurs(s: string, p: string)
    ensures Contains(s, p) <==> exists i :: 0 <= i <= |s| && StartsWith(s[i..], p)
  {
    if Contains(s, p) {
      if StartsWith(s, p) {
        assert s[0..] == s;
      } else {
        ContainsIffOccurs(s[1..], p);
        var j :| 0 <= j <= |s[1..]| && StartsWith(s[1..][j..], p);
        assert s[1..][j..] == s[j + 1..];
      }
    }
    if exists i :: 0 <= i <= |s| && StartsWith(s[i..], p) {
      var i :| 0 <= i <= |s| && StartsWith(s[i..], p);
      if i == 0 {
        assert s[0..] == s;
      } else {
        assert s[1..][i - 1..] == s[i..];
        ContainsIffOccurs(s[1..], p);
      }
    }
  }

  /** A one-character pattern occurs exactly when the character does. */
  lemma {:induction false} ContainsChar(s: string, c: char)
    ensures Contains(s, [c]) <==> c in s
  {
    if s != [] {
      ContainsChar(s[1..], c);
      assert s == [s[0]] + s[1..];
    }
  }

  /**
   * Python's `s.replace(pat, rep)`: every occurrence of `pat`, found left to
   * right without overlap, is replaced by `rep`.
   */
  function ReplaceAll(s: string, pat: string, rep: string): (r: string)
    requires pat != []
    ensures !Contains(s, pat) ==> r == s
    ensures forall c :: c !in s && c !in rep ==> c !in r
    ensures |pat| == 1 && pat[0] !in rep ==> pat[0] !in r
    decreases |s|
  {
    if s == [] then []
    else if StartsWith(s, pat) then rep + ReplaceAll(s[|pat|..], pat, rep)
    else [s[0]] + ReplaceAll(s[1..], pat, rep)
  }

  /** Python's `s.replace(pat, rep, 1)`: only the first occurrence is replaced. */
  function ReplaceFirst(s: string, pat: string, rep: string): (r: string)
    requires pat != []
    ensures !Contains(s, pat) ==> r == s
    ensures forall c :: c !in s && c !in rep ==> c !in r
    decreases |s|
  {
    if s == [] then []
    else if StartsWith(s, pat) then rep + s[|pat|..]
    else [s[0]] + ReplaceFirst(s[1..], pat, rep)
  }

  /** A pattern cannot occur in a string that lacks one of its characters. */
  lemma ContainsMissing(s: string, p: string, k: nat)
    requires k < |p| && p[k] !in s
    ensures !Contains(s, p)
  {
    ContainsIffOccurs(s, p);
  }

  /** A string does not start with a pattern whose first character differs from its own. */
  lemma HeadMismatch(s: string, p: string)
    requires s != [] && p != [] && s[0] != p[0]
    ensures !StartsWith(s, p)
  {
    if |p| <= |s| {
      assert s[..|p|][0] == s[0];
    }
  }

  /** Putting a character in front of a concatenation. */
  lemma ConsConcat(c: char, a: string, b: string)
    ensures [c] + (a + b) == ([c] + a) + b
  {
  }

  /** `replace` leaves alone a prefix that lacks the pattern's first character. */
  lemma {:induction false} ReplaceAllSkip(s: string, t: string, pat: string, rep: string)
    requires pat != [] && pat[0] !in s
    ensures ReplaceAll(s + t, pat, rep) == s + ReplaceAll(t, pat, rep)
  {
    if s == [] {
      assert s + t == t;
    } else {
      var st := s + t;
      assert st[0] == s[0] && s[0] in s;
      HeadMismatch(st, pat);
      assert st[1..] == s[1..] + t;
      ReplaceAllSkip(s[1..], t, pat, rep);
      ConsConcat(s[0], s[1..], ReplaceAll(t, pat, rep));
      assert [s[0]] + s[1..] == s;
    }
  }

  /** Python's `s.count(c)` for a single character. */
  function CountChar(s: string, c: char): (n: nat)
    ensures n <= |s|
    ensures n == 0 <==> c !in s
  {
    if s == [] then 0 else (if s[0] == c then 1 else 0) + CountChar(s[1..], c)
  }

  /** Python's `str.isspace()` for one character: the characters `strip()` and `split()` skip. */
  predicate IsSpace(c: char) {
    || ('\U{0009}' <= c <= '\U{000D}')
    || ('\U{001C}' <= c <= '\U{0020}')
    || c == '\U{0085}' || c == '\U{00A0}' || c == '\U{1680}'
    || ('\U{2000}' <= c <= '\U{200A}')
    || c == '\U{2028}' || c == '\U{2029}' || c == '\U{202F}' || c == '\U{205F}' || c == '\U{3000}'
  }

  /** Python's `s.lstrip()`. */
  function StripLeft(s: string): (r: string)
    ensures |r| <= |s| && r == s[|s| - |r|..]
    ensures forall k :: 0 <= k < |s| - |r| ==> IsSpace(s[k])
    ensures r != [] ==> !IsSpace(r[0])
    decreases |s|
  {
    if s != [] && IsSpace(s[0]) then StripLeft(s[1..]) else s
  }

  /** Python's `s.rstrip()`. */
  function StripRight(s: string): (r: string)
    ensures |r| <= |s| && r == s[..|r|]
    ensures forall k :: |r| <= k < |s| ==> IsSpace(s[k])
    ensures r != [] ==> !IsSpace(r[|r| - 1])
    decreases |s|
  {
    if s != [] && IsSpace(s[|s| - 1]) then StripRight(s[..|s| - 1]) else s
  }

  /** Python's `s.strip()`: empty exactly when `s` is all whitespace. */
  function Strip(s: string): (r: string)
    ensures |r| <= |s|
    ensures r == [] <==> forall k :: 0 <= k < |s| ==> IsSpace(s[k])
    ensures r != [] ==> !IsSpace(r[0]) && !IsSpace(r[|r| - 1])
  {
    var t := StripLeft(s);
    StripRight(t)
  }

  /** No character of `w` is whitespace. */
  predicate NoSpace(w: string)
    decreases |w|
  {
    w == [] || (!IsSpace(w[0]) && NoSpace(w[1..]))
  }

  /** `NoSpace` read character by character. */
  lemma {:induction false} NoSpaceIff(w: string)
    ensures NoSpace(w) <==> forall k :: 0 <= k < |w| ==> !IsSpace(w[k])
    decreases |w|
  {
    if w != [] {
      NoSpaceIff(w[1..]);
      assert forall k :: 1 <= k < |w| ==> w[k] == w[1..][k - 1];
    }
  }

  /** The longest prefix of `s` that holds no whitespace. */
  function TakeWord(s: string): (w: string)
    ensures |w| <= |s| && w == s[..|w|]
    ensures NoSpace(w)
    ensures s != [] && !IsSpace(s[0]) ==> w != []
    ensures |w| < |s| ==> IsSpace(s[|w|])
    decreases |s|
  {
    if s == [] || IsSpace(s[0]) then [] else [s[0]] + TakeWord(s[1..])
  }

  /**
   * Python's `s.split()` with no argument: the maximal runs of
   * non-whitespace characters, in order.
   */
  function Words(s: string): (ws: seq<string>)
    ensures forall i :: 0 <= i < |ws| ==> ws[i] != [] && NoSpace(ws[i])
    decreases |s|
  {
    var t := StripLeft(s);
    if t == [] then []
    else
      var w := TakeWord(t);
      var rest := Words(t[|w|..]);
      WordsCons(w, rest);
      [w] + rest
  }

  /** Putting a word in front of a list of words keeps every entry a word. */
  lemma WordsCons(w: string, rest: seq<string>)
    requires w != [] && NoSpace(w)
    requires forall i :: 0 <= i < |rest| ==> rest[i] != [] && NoSpace(rest[i])
    ensures forall i :: 0 <= i < |[w] + rest| ==> ([w] + rest)[i] != [] && NoSpace(([w] + rest)[i])
  {
    forall i | 0 <= i < |[w] + rest|
      ensures ([w] + rest)[i] != [] && NoSpace(([w] + rest)[i])
    {
      if i > 0 {
        assert ([w] + rest)[i] == rest[i - 1];
      }
    }
  }

  /**
   * A word followed by whitespace splits off as the first word, and the rest
   * is split on its own: the runs are maximal and come in order.
   */
  lemma WordsAfterWord(w: string, c: char, t: string)
    requires w != [] && NoSpace(w) && IsSpace(c)
    ensures Words(w + [c] + t) == [w] + Words(t)
  {
    var s := w + [c] + t;
    assert s[0] == w[0];
    assert StripLeft(s) == s;
    TakeWordBefore(w, c, t);
    assert s[|w|..] == [c] + t;
    assert ([c] + t)[1..] == t;
    assert StripLeft([c] + t) == StripLeft(t);
  }

  /** The word taken from a word followed by whitespace is that word. */
  lemma {:induction false} TakeWordBefore(w: string, c: char, t: string)
    requires NoSpace(w) && IsSpace(c)
    ensures TakeWord(w + [c] + t) == w
    decreases |w|
  {
    var s := w + [c] + t;
    if w == [] {
      assert s[0] == c;
    } else {
      assert s[0] == w[0];
      assert s[1..] == w[1..] + [c] + t;
      TakeWordBefore(w[1..], c, t);
      assert [w[0]] + w[1..] == w;
    }
  }

  /** `s.split()` is empty exactly when `s` is all whitespace. */
  lemma WordsEmpty(s: string)
    ensures Words(s) == [] <==> forall k :: 0 <= k < |s| ==> IsSpace(s[k])
  {
    var t := StripLeft(s);
    if t != [] {
      assert t[0] == s[|s| - |t|];
    }
  }

  /** Python's `sep.join(parts)`. */
  function Join(parts: seq<string>, sep: string): (r: string)
    ensures parts != [] ==> StartsWith(r, parts[0]) && EndsWith(r, parts[|parts| - 1])
  {
    if parts == [] then []
    else if |parts| == 1 then parts[0]
    else
      var tail := Join(parts[1..], sep);
      var r := parts[0] + sep + tail;
      assert r[..|parts[0]|] == parts[0];
      assert r[|r| - |parts[|parts| - 1]|..] == tail[|tail| - |parts[|parts| - 1]|..];
      r
  }

  /** A character in neither the parts nor the separator is not in the joined string. */
  lemma {:induction false} JoinKeepsOut(parts: seq<string>, sep: string, c: char)
    requires forall i :: 0 <= i < |parts| ==> c !in parts[i]
    requires c !in sep
    ensures c !in Join(parts, sep)
    decreases |parts|
  {
    if |parts| > 1 {
      JoinKeepsOut(parts[1..], sep, c);
    }
  }

  /** Python's `s.split(sep)` for a one-character separator: empty fields are kept. */
  function Split(s: string, sep: char): (parts: seq<string>)
    ensures |parts| == CountChar(s, sep) + 1
    ensures forall i :: 0 <= i < |parts| ==> sep !in parts[i]
    decreases |s|
  {
    if s == [] then [[]]
    else
      var rest := Split(s[1..], sep);
      if s[0] == sep then [[]] + rest
      else [[s[0]] + rest[0]] + rest[1..]
  }

  /** Splitting on a separator and joining with it gives back the string. */
  lemma {:induction false} JoinSplit(s: string, sep: char)
    ensures Join(Split(s, sep), [sep]) == s
  {
    if s != [] {
      var rest := Split(s[1..], sep);
      JoinSplit(s[1..], sep);
      if s[0] == sep {
        assert Split(s, sep) == [[]] + rest;
        JoinEmptyFirst(rest, [sep]);
      } else {
        assert Split(s, sep) == [[s[0]] + rest[0]] + rest[1..];
        JoinCons(s[0], rest, [sep]);
      }
      assert [s[0]] + s[1..] == s;
    }
  }

  /** Joining after an empty first part puts a separator in front. */
  lemma JoinEmptyFirst(parts: seq<string>, sep: string)
    requires parts != []
    ensures Join([[]] + parts, sep) == sep + Join(parts, sep)
  {
    var ps := [[]] + parts;
    assert ps[0] == [] && ps[1..] == parts;
    assert [] + sep == sep;
  }

  /** Joining after extending the first part by a character in front. */
  lemma JoinCons(c: char, parts: seq<string>, sep: string)
    requires parts != []
    ensures Join([[c] + parts[0]] + parts[1..], sep) == [c] + Join(parts, sep)
  {
    var ps := [[c] + parts[0]] + parts[1..];
    assert ps[1..] == parts[1..];
    if |parts| > 1 {
      var tail := Join(parts[1..], sep);
      ConsConcat(c, parts[0] + sep, tail);
      ConsConcat(c, parts[0], sep);
    }
  }

  /** A string without the separator splits into itself alone. */
  lemma {:induction false} SplitNoSep(s: string, sep: char)
    requires sep !in s
    ensures Split(s, sep) == [s]
    decreases |s|
  {
    if s != [] {
      SplitNoSep(s[1..], sep);
      assert [s[0]] + s[1..] == s;
    }
  }

  /** A separator after a field without one ends that field. */
  lemma {:induction false} SplitAfterField(a: string, b: string, sep: char)
    requires sep !in a
    ensures Split(a + [sep] + b, sep) == [a] + Split(b, sep)
    decreases |a|
  {
    if a == [] {
      assert ([sep] + b)[1..] == b;
    } else {
      assert (a + [sep] + b)[1..] == a[1..] + [sep] + b;
      SplitAfterField(a[1..], b, sep);
      assert [a[0]] + a[1..] == a;
    }
  }

  /** Joining fields that hold no separator and splitting again gives the fields back. */
  lemma {:induction false} SplitJoin(parts: seq<string>, sep: char)
    requires parts != []
    requires forall i :: 0 <= i < |parts| ==> sep !in parts[i]
    ensures Split(Join(parts, [sep]), sep) == parts
    decreases |parts|
  {
    if |parts| == 1 {
      SplitNoSep(parts[0], sep);
    } else {
      SplitAfterField(parts[0], Join(parts[1..], [sep]), sep);
      SplitJoin(parts[1..], sep);
      assert [parts[0]] + parts[1..] == parts;
    }
  }

  function DigitChar(d: nat): (c: char)
    requires d < 10
  {
    ('0' as int + d) as char
  }

  predicate IsDigit(c: char) {
    '0' as int <= c as int <= '9' as int
  }

  /** Python's `str(n)` for a non-negative integer: decimal, no leading zeros. */
  function NatToString(n: nat): (r: string)
    ensures r != [] && forall k :: 0 <= k < |r| ==> IsDigit(r[k])
    ensures r[0] == '0' ==> r == "0"
    decreases n
  {
    if n < 10 then [DigitChar(n)] else NatToString(n / 10) + [DigitChar(n % 10)]
  }

  /** Reading a string of decimal digits back as a number. */
  function ParseNat(s: string): nat
    requires forall k :: 0 <= k < |s| ==> IsDigit(s[k])
  {
    if s == [] then 0
    else
      assert IsDigit(s[|s| - 1]);
      10 * ParseNat(s[..|s| - 1]) + (s[|s| - 1] as int - '0' as int)
  }

  /** `NatToString` loses nothing: the digits read back as the number. */
  lemma {:induction false} ParseNatToString(n: nat)
    ensures ParseNat(NatToString(n)) == n
  {
    if n >= 10 {
      var r := NatToString(n);
      assert r[..|r| - 1] == NatToString(n / 10);
      ParseNatToString(n / 10);
    }
  }

  /** Python's `str(i)`/f-string rendering of an integer. */
  function IntToString(i: int): (r: string)
    ensures r != []
    ensures i >= 0 ==> r == NatToString(i)
  {
    if i < 0 then "-" + NatToString(-i) else NatToString(i)
  }

  /**
   * Python's `str.lower()` on one character, for the scripts the bot's
   * keywords are written in: Latin A-Z and the Cyrillic block U+0400-U+042F.
   */
  function LowerChar(c: char): char {
    if 'A' <= c <= 'Z' then (c as int + 32) as char
    else if '\U{0410}' <= c <= '\U{042F}' then (c as int + 32) as char
    else if '\U{0400}' <= c <= '\U{040F}' then (c as int + 80) as char
    else c
  }

  /** Python's `s.lower()`, character by character. */
  function Lower(s: string): (r: string)
    ensures |r| == |s|
  {
    seq(|s|, k requires 0 <= k < |s| => LowerChar(s[k]))
  }

  /** Lower-casing twice is lower-casing once. */
  lemma LowerIdempotent(s: string)
    ensures Lower(Lower(s)) == Lower(s)
  {
  }
}
