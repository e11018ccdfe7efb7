/** The few Python string built-ins the authentication module relies on:
    `str.split()`, `str.split(sep)`, `str.lower()`, `str.replace(old, "")` and `int(str)`.
    Each is modelled on `seq<char>` together with the facts about it that the
    rest of the model needs. */
module PyStrings {
  import opened Wrappers

  // ---------------------------------------------------------------------------
  // Whitespace and `str.split()`

  /** The characters for which Python's `str.isspace()` holds. */
  predicate IsSpace(c: char) {
    c == ' ' || ('\t' <= c <= '\r') || ('\U{1C}' <= c <= '\U{1F}') ||
    c == '\U{85}' || c == '\U{A0}' || c == '\U{1680}' ||
    ('\U{2000}' <= c <= '\U{200A}') || c == '\U{2028}' || c == '\U{2029}' ||
    c == '\U{202F}' || c == '\U{205F}' || c == '\U{3000}'
  }

  predicate NoSpace(s: string) {
    forall i :: 0 <= i < |s| ==> !IsSpace(s[i])
  }

  predicate AllSpace(s: string) {
    forall i :: 0 <= i < |s| ==> IsSpace(s[i])
  }

  /** Length of the longest whitespace-free prefix of `s`. */
  function WordLength(s: string): (n: nat)
    ensures n <= |s|
    ensures NoSpace(s[..n])
    ensures n < |s| ==> IsSpace(s[n])
  {
    if |s| == 0 || IsSpace(s[0]) then 0 else 1 + WordLength(s[1..])
  }

  /** Python's `s.split()`: the maximal runs of non-whitespace characters, in order.
      Every word is non-empty and holds no whitespace. */
  function Words(s: string): (r: seq<string>)
    ensures forall i :: 0 <= i < |r| ==> |r[i]| > 0 && NoSpace(r[i])
    decreases |s|
  {
    if |s| == 0 then []
    else if IsSpace(s[0]) then Words(s[1..])
    else
      var n := WordLength(s);
      [s[..n]] + Words(s[n..])
  }

  /** `split()` of a whitespace-only string (the empty one included) has no parts, and
      only such strings have none. */
  lemma {:induction false} WordsEmptyIff(s: string)
    ensures Words(s) == [] <==> AllSpace(s)
    decreases |s|
  {
    if |s| > 0 && IsSpace(s[0]) {
      WordsEmptyIff(s[1..]);
      assert AllSpace(s) <==> AllSpace(s[1..]) by {
        if AllSpace(s[1..]) {
          forall i | 0 <= i < |s| ensures IsSpace(s[i]) {
            if i > 0 { assert s[i] == s[1..][i - 1]; }
          }
        }
      }
    }
  }

  /** Leading whitespace does not change `split()`. */
  lemma {:induction false} WordsSkipSpace(gap: string, rest: string)
    requires AllSpace(gap)
    ensures Words(gap + rest) == Words(rest)
    decreases |gap|
  {
    if |gap| > 0 {
      assert (gap + rest)[1..] == gap[1..] + rest;
      WordsSkipSpace(gap[1..], rest);
    } else {
      assert gap + rest == rest;
    }
  }

  lemma {:induction false} WordLengthOfWord(w: string, rest: string)
    requires NoSpace(w)
    requires rest == [] || IsSpace(rest[0])
    ensures WordLength(w + rest) == |w|
    decreases |w|
  {
    if |w| > 0 {
      assert (w + rest)[1..] == w[1..] + rest;
      WordLengthOfWord(w[1..], rest);
    } else {
      assert w + rest == rest;
    }
  }

  /** A word followed by whitespace (or by nothing) is the first part of `split()`. */
  lemma WordsOfWordThen(w: string, rest: string)
    requires |w| > 0 && NoSpace(w)
    requires rest == [] || IsSpace(rest[0])
    ensures Words(w + rest) == [w] + Words(rest)
  {
    WordLengthOfWord(w, rest);
    assert (w + rest)[..|w|] == w;
    assert (w + rest)[|w|..] == rest;
  }

  /** A word surrounded by whitespace splits into itself alone. */
  lemma OneWord(w: string, trail: string)
    requires |w| > 0 && NoSpace(w) && AllSpace(trail)
    ensures Words(w + trail) == [w]
  {
    WordsEmptyIff(trail);
    WordsOfWordThen(w, trail);
  }

  /** `split()` of `lead + w1 + gap + w2 + trail` is `[w1, w2]` whenever the two words
      hold no whitespace and the three fillers are whitespace, `gap` non-empty. */
  lemma TwoWords(lead: string, w1: string, gap: string, w2: string, trail: string)
    requires AllSpace(lead) && AllSpace(gap) && AllSpace(trail) && |gap| > 0
    requires |w1| > 0 && NoSpace(w1) && |w2| > 0 && NoSpace(w2)
    ensures Words(lead + w1 + gap + w2 + trail) == [w1, w2]
  {
    var tail1 := gap + (w2 + trail);
    WordsAfterWord(w1, gap, w2 + trail);
    OneWord(w2, trail);
    WordsSkipSpace(lead, w1 + tail1);
    Regroup(lead, w1, gap, w2, trail);
  }

  lemma WordsAfterWord(w: string, gap: string, rest: string)
    requires |w| > 0 && NoSpace(w) && AllSpace(gap) && |gap| > 0
    ensures Words(w + (gap + rest)) == [w] + Words(rest)
  {
    WordsSkipSpace(gap, rest);
    assert (gap + rest)[0] == gap[0];
    WordsOfWordThen(w, gap + rest);
  }

  lemma Regroup(a: string, b: string, c: string, d: string, e: string)
    ensures a + b + c + d + e == a + (b + (c + (d + e)))
  {
  }

  // ---------------------------------------------------------------------------
  // `str.lower()`

  /** Lower-casing of one character; only ASCII letters are mapped (see README). */
  function LowerChar(c: char): char {
    if 'A' <= c <= 'Z' then (c as int + 32) as char else c
  }

  /** Python's `s.lower()` on ASCII: upper-case letters become their lower-case counterparts,
      every other character is kept. */
  function Lower(s: string): (r: string)
    ensures |r| == |s|
    ensures forall i :: 0 <= i < |s| && !('A' <= s[i] <= 'Z') ==> r[i] == s[i]
    ensures forall i :: 0 <= i < |s| && 'A' <= s[i] <= 'Z' ==> 'a' <= r[i] <= 'z'
    ensures forall i :: 0 <= i < |s| && 'A' <= s[i] <= 'Z' ==> r[i] as int == s[i] as int + ('a' as int - 'A' as int)
  {
    seq(|s|, i requires 0 <= i < |s| => LowerChar(s[i]))
  }

  /** Lowering maps whitespace to whitespace, so a string whose lowering is a word
      holds no whitespace itself. */
  lemma LowerKeepsSpace(s: string)
    requires NoSpace(Lower(s))
    ensures NoSpace(s)
  {
    forall i | 0 <= i < |s| ensures !IsSpace(s[i]) {
      assert Lower(s)[i] == LowerChar(s[i]);
    }
  }

  // ---------------------------------------------------------------------------
  // `str.split(sep)` with a one-character separator

  predicate Free(s: string, sep: char) {
    forall i :: 0 <= i < |s| ==> s[i] != sep
  }

  /** Python's `s.split(sep)`: never empty; `"".split(sep) == [""]`. */
  function SplitOn(s: string, sep: char): (r: seq<string>)
    ensures |r| >= 1
    decreases |s|
  {
    if |s| == 0 then [""]
    else
      var rest := SplitOn(s[1..], sep);
      if s[0] == sep then [""] + rest
      else [[s[0]] + rest[0]] + rest[1..]
  }

  /** Python's `sep.join(parts)`. */
  function Join(parts: seq<string>, sep: char): string
    requires |parts| >= 1
    decreases |parts|
  {
    if |parts| == 1 then parts[0] else parts[0] + [sep] + Join(parts[1..], sep)
  }

  /** Number of occurrences of `c` in `s`. */
  function Count(s: string, c: char): nat
    decreases |s|
  {
    if |s| == 0 then 0 else (if s[0] == c then 1 else 0) + Count(s[1..], c)
  }

  /** Splitting then joining gives back the string; no part holds the separator,
      and there is one part more than there are separators. */
  lemma {:induction false} SplitJoin(s: string, sep: char)
    ensures Join(SplitOn(s, sep), sep) == s
    ensures forall i :: 0 <= i < |SplitOn(s, sep)| ==> Free(SplitOn(s, sep)[i], sep)
    ensures |SplitOn(s, sep)| == Count(s, sep) + 1
    decreases |s|
  {
    if |s| > 0 {
      var rest := SplitOn(s[1..], sep);
      SplitJoin(s[1..], sep);
      var r := SplitOn(s, sep);
      if s[0] == sep {
        assert r == [""] + rest;
        assert r[1..] == rest;
        assert s == [sep] + s[1..];
      } else {
        assert r == [[s[0]] + rest[0]] + rest[1..];
        if |rest| == 1 {
          assert s == [s[0]] + s[1..];
        } else {
          assert r[1..] == rest[1..];
          assert Join(rest, sep) == rest[0] + [sep] + Join(rest[1..], sep);
          assert s == [s[0]] + s[1..];
        }
        forall i | 0 <= i < |r| ensures Free(r[i], sep) {
          if i == 0 {
            assert Free(rest[0], sep);
          } else {
            assert r[i] == rest[i];
          }
        }
      }
    }
  }

  /** Prefixing a separator-free string only extends the first part. */
  lemma {:induction false} SplitOnFreePrefix(a: string, b: string, sep: char)
    requires Free(a, sep)
    ensures SplitOn(a + b, sep) == [a + SplitOn(b, sep)[0]] + SplitOn(b, sep)[1..]
    decreases |a|
  {
    if |a| == 0 {
      var r := SplitOn(b, sep);
      assert a + b == b;
      assert a + r[0] == r[0];
      assert [r[0]] + r[1..] == r;
    } else {
      assert (a + b)[1..] == a[1..] + b;
      assert (a + b)[0] == a[0];
      SplitOnFreePrefix(a[1..], b, sep);
      assert [a[0]] + (a[1..] + SplitOn(b, sep)[0]) == a + SplitOn(b, sep)[0];
    }
  }

  /** Joining separator-free parts then splitting gives back the parts. */
  lemma {:induction false} JoinSplit(parts: seq<string>, sep: char)
    requires |parts| >= 1
    requires forall i :: 0 <= i < |parts| ==> Free(parts[i], sep)
    ensures SplitOn(Join(parts, sep), sep) == parts
    decreases |parts|
  {
    if |parts| == 1 {
      SplitOnFreePrefix(parts[0], "", sep);
      assert parts[0] + "" == parts[0];
    } else {
      var tail := Join(parts[1..], sep);
      JoinSplit(parts[1..], sep);
      SplitOnFreePrefix(parts[0], [sep] + tail, sep);
      assert SplitOn([sep] + tail, sep) == [""] + SplitOn(tail, sep) by {
        assert ([sep] + tail)[1..] == tail;
      }
      assert parts[0] + [sep] + tail == parts[0] + ([sep] + tail);
      assert parts[0] + "" == parts[0];
      assert ([""] + SplitOn(tail, sep))[1..] == parts[1..];
      assert parts == [parts[0]] + parts[1..];
    }
  }

  /** `(a + sep + b).split(sep) == [a, b]` for separator-free `a` and `b`. */
  lemma SplitTwo(a: string, b: string, sep: char)
    requires Free(a, sep) && Free(b, sep)
    ensures SplitOn(a + [sep] + b, sep) == [a, b]
  {
    JoinSplit([a, b], sep);
    assert Join([a, b], sep) == a + [sep] + Join([b], sep);
  }

  /** A separator-free string splits into itself alone. */
  lemma SplitNone(a: string, sep: char)
    requires Free(a, sep)
    ensures SplitOn(a, sep) == [a]
  {
    JoinSplit([a], sep);
  }

  // ---------------------------------------------------------------------------
  // `str.replace(pat, "")`

  /** Python's `s.replace(pat, "")`: removes the non-overlapping occurrences of `pat`
      found scanning left to right. */
  function RemoveAll(s: string, pat: string): (r: string)
    requires |pat| > 0
    ensures |r| <= |s|
    decreases |s|
  {
    if |s| < |pat| then s
    else if s[..|pat|] == pat then RemoveAll(s[|pat|..], pat)
    else [s[0]] + RemoveAll(s[1..], pat)
  }

  /** A string lacking the first character of `pat` is left untouched. */
  lemma {:induction false} RemoveAllAbsent(s: string, pat: string)
    requires |pat| > 0 && Free(s, pat[0])
    ensures RemoveAll(s, pat) == s
    decreases |s|
  {
    if |s| >= |pat| {
      assert s[..|pat|][0] == s[0];
      RemoveAllAbsent(s[1..], pat);
      assert s == [s[0]] + s[1..];
    }
  }

  /** `RemoveAllAbsent` under a condition, for use inside expressions. */
  lemma RemoveAllAbsentIf(s: string, pat: string)
    requires |pat| > 0
    ensures Free(s, pat[0]) ==> RemoveAll(s, pat) == s
  {
    if Free(s, pat[0]) {
      RemoveAllAbsent(s, pat);
    }
  }

  /** A leading occurrence of `pat` is removed. */
  lemma RemoveAllLeading(pat: string, s: string)
    requires |pat| > 0
    ensures RemoveAll(pat + s, pat) == RemoveAll(s, pat)
  {
    assert (pat + s)[..|pat|] == pat;
    assert (pat + s)[|pat|..] == s;
  }

  // ---------------------------------------------------------------------------
  // `int(str)` and `str(int)`

  predicate IsDigit(c: char) {
    '0' <= c <= '9'
  }

  predicate AllDigits(s: string) {
    forall i :: 0 <= i < |s| ==> IsDigit(s[i])
  }

  /** Decimal value of a string of ASCII digits. */
  function DigitsValue(s: string): nat
    requires AllDigits(s)
    decreases |s|
  {
    if |s| == 0 then 0
    else DigitsValue(s[..|s| - 1]) * 10 + (s[|s| - 1] as int - '0' as int)
  }

  /** Python's `int(s)` restricted to an optional sign followed by one or more ASCII
      digits; `None` stands for the `ValueError` Python raises. */
  function ParseInt(s: string): (r: Option<int>)
    ensures r.Some? ==> |s| > 0
    ensures |s| > 0 && AllDigits(s) ==> r.Some? && r.value >= 0
  {
    if |s| > 0 && (s[0] == '-' || s[0] == '+') then
      var body := s[1..];
      if |body| > 0 && AllDigits(body) then
        Some(if s[0] == '-' then -(DigitsValue(body) as int) else DigitsValue(body))
      else None
    else if |s| > 0 && AllDigits(s) then Some(DigitsValue(s))
    else None
  }

  /** Decimal digits of a natural number, as Python's `str(n)` writes them. */
  function NatToString(n: nat): (s: string)
    ensures |s| > 0 && AllDigits(s)
  {
    var d := [(('0' as int) + n % 10) as char];
    if n < 10 then d else NatToString(n / 10) + d
  }

  /** Python's `str(i)`. */
  function IntToString(i: int): string {
    if i < 0 then "-" + NatToString(-i) else NatToString(i)
  }

  lemma {:induction false} DigitsValueOfNat(n: nat)
    ensures DigitsValue(NatToString(n)) == n
  {
    var s := NatToString(n);
    if n >= 10 {
      DigitsValueOfNat(n / 10);
      assert s[..|s| - 1] == NatToString(n / 10);
    }
  }

  /** `int(str(i)) == i` for every integer. */
  lemma ParseIntOfString(i: int)
    ensures ParseInt(IntToString(i)) == Some(i)
  {
    if i < 0 {
      DigitsValueOfNat(-i);
      assert IntToString(i)[1..] == NatToString(-i);
    } else {
      DigitsValueOfNat(i);
    }
  }

  /** `int` never accepts a string with a character that is neither a digit nor a sign. */
  lemma ParseIntRejects(s: string, k: nat)
    requires k < |s| && !IsDigit(s[k]) && s[k] != '-' && s[k] != '+'
    ensures ParseInt(s) == None
  {
    if |s| > 0 && (s[0] == '-' || s[0] == '+') {
      assert s[1..][k - 1] == s[k];
    }
  }
}
