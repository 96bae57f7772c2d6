/** The JavaScript string built-ins the ingestion core relies on, stated on `seq<char>`:
    `length` in UTF-16 code units, the `\s` / `trim()` whitespace set, `trim`,
    `split(/\s+/)` into words, `split` on a character class, `startsWith`, `includes`,
    `toLowerCase`, `parseInt(_, 10)` and the decimal rendering of a non-negative integer
    in a template string. */
module JsString {
  import opened Wrappers

  /** ECMAScript WhiteSpace and LineTerminator code points: the set matched by `\s`
      and removed by `String.prototype.trim`. */
  predicate IsSpace(c: char)
  {
    c == '\t' || c == '\n' || c == '\U{000B}' || c == '\U{000C}' || c == '\r' || c == ' ' ||
    c == '\U{00A0}' || c == '\U{1680}' || ('\U{2000}' <= c <= '\U{200A}') ||
    c == '\U{2028}' || c == '\U{2029}' || c == '\U{202F}' || c == '\U{205F}' ||
    c == '\U{3000}' || c == '\U{FEFF}'
  }

  predicate NoSpace(s: string)
  {
    forall i :: 0 <= i < |s| ==> !IsSpace(s[i])
  }

  predicate AllSpace(s: string)
  {
    forall i :: 0 <= i < |s| ==> IsSpace(s[i])
  }

  // ---------------------------------------------------------------------------
  // length
  // ---------------------------------------------------------------------------

  /** The UTF-16 code units of one character: two (a surrogate pair) above U+FFFF, one
      otherwise. */
  function CodeUnits(c: char): nat
  {
    if c as int > 0xFFFF then 2 else 1
  }

  /** `s.length`, which counts UTF-16 code units: a character outside the Basic
      Multilingual Plane counts twice. */
  function Utf16Length(s: string): (n: nat)
    ensures |s| <= n <= 2 * |s|
    decreases |s|
  {
    if s == [] then 0 else CodeUnits(s[0]) + Utf16Length(s[1..])
  }

  /** For text inside the Basic Multilingual Plane `length` is the number of characters. */
  lemma {:induction false} Utf16LengthOfBmp(s: string)
    requires forall i :: 0 <= i < |s| ==> s[i] as int <= 0xFFFF
    ensures Utf16Length(s) == |s|
    decreases |s|
  {
    if s != [] {
      Utf16LengthOfBmp(s[1..]);
    }
  }

  /** Lengths add up over concatenation. */
  lemma {:induction false} Utf16LengthAppend(a: string, b: string)
    ensures Utf16Length(a + b) == Utf16Length(a) + Utf16Length(b)
    decreases |a|
  {
    if a == [] {
      assert a + b == b;
    } else {
      assert (a + b)[0] == a[0];
      assert (a + b)[1..] == a[1..] + b;
      Utf16LengthAppend(a[1..], b);
    }
  }

  // ---------------------------------------------------------------------------
  // trim()
  // ---------------------------------------------------------------------------

  /** Length of the leading whitespace run. */
  function LeadingSpaces(s: string): (n: nat)
    ensures n <= |s| && AllSpace(s[..n]) && (n < |s| ==> !IsSpace(s[n]))
  {
    if s == [] || !IsSpace(s[0]) then 0
    else
      var n := 1 + LeadingSpaces(s[1..]);
      assert s[..n] == [s[0]] + s[1..][..n - 1];
      n
  }

  /** Length of the trailing whitespace run. */
  function TrailingSpaces(s: string): (n: nat)
    ensures n <= |s| && AllSpace(s[|s| - n..]) && (n < |s| ==> !IsSpace(s[|s| - n - 1]))
  {
    if s == [] || !IsSpace(s[|s| - 1]) then 0
    else
      var n := 1 + TrailingSpaces(s[..|s| - 1]);
      assert s[|s| - n..] == s[..|s| - 1][|s| - n..] + [s[|s| - 1]];
      n
  }

  function TrimStart(s: string): string
  {
    s[LeadingSpaces(s)..]
  }

  function TrimEnd(s: string): string
  {
    s[..|s| - TrailingSpaces(s)]
  }

  /** `s.trim()`: the string without its leading and trailing whitespace. */
  function Trim(s: string): (r: string)
    ensures r == [] || (!IsSpace(r[0]) && !IsSpace(r[|r| - 1]))
  {
    TrimEnd(TrimStart(s))
  }

  lemma TrimIdempotent(s: string)
    ensures Trim(Trim(s)) == Trim(s)
  {
    TrimOfUnpadded(Trim(s));
  }

  lemma TrimOfUnpadded(s: string)
    requires s == [] || (!IsSpace(s[0]) && !IsSpace(s[|s| - 1]))
    ensures Trim(s) == s
  {
  }

  // ---------------------------------------------------------------------------
  // Words: `s.split(/\s+/).filter((w) => w.length > 0)`
  // ---------------------------------------------------------------------------

  /** Length of the leading run of non-whitespace characters. */
  function WordLength(s: string): (n: nat)
    ensures n <= |s| && NoSpace(s[..n]) && (n < |s| ==> IsSpace(s[n]))
  {
    if s == [] || IsSpace(s[0]) then 0
    else
      var n := 1 + WordLength(s[1..]);
      assert s[..n] == [s[0]] + s[1..][..n - 1];
      n
  }

  /** The maximal runs of non-whitespace characters, in order: exactly the non-empty
      pieces of `s.split(/\s+/)`. */
  function Words(s: string): (ws: seq<string>)
    ensures forall k :: 0 <= k < |ws| ==> ws[k] != [] && NoSpace(ws[k])
    decreases |s|
  {
    if s == [] then []
    else if IsSpace(s[0]) then Words(s[1..])
    else [s[..WordLength(s)]] + Words(s[WordLength(s)..])
  }

  /** `countWords`: the number of whitespace-separated words. */
  function CountWords(s: string): nat
  {
    |Words(s)|
  }

  lemma WordsOfSpaceLed(c: char, s: string)
    requires IsSpace(c)
    ensures Words([c] + s) == Words(s)
  {
    assert ([c] + s)[1..] == s;
  }

  lemma {:induction false} WordsOfAllSpace(s: string)
    requires AllSpace(s)
    ensures Words(s) == []
    decreases |s|
  {
    if s != [] {
      WordsOfAllSpace(s[1..]);
    }
  }

  lemma {:induction false} WordsOfSpacePrefix(a: string, s: string)
    requires AllSpace(a)
    ensures Words(a + s) == Words(s)
    decreases |a|
  {
    if a != [] {
      assert (a + s)[0] == a[0] && IsSpace(a[0]) && AllSpace(a[1..]);
      assert (a + s)[1..] == a[1..] + s;
      assert Words(a + s) == Words(a[1..] + s);
      WordsOfSpacePrefix(a[1..], s);
    } else {
      assert a + s == s;
    }
  }

  /** A word followed by nothing or by whitespace is read as one word. */
  lemma WordsOfWordLed(w: string, s: string)
    requires w != [] && NoSpace(w) && (s == [] || IsSpace(s[0]))
    ensures Words(w + s) == [w] + Words(s)
  {
    WordLengthOf(w, s);
    assert (w + s)[..|w|] == w;
    assert (w + s)[|w|..] == s;
  }

  lemma {:induction false} WordLengthOf(w: string, s: string)
    requires NoSpace(w) && (s == [] || IsSpace(s[0]))
    ensures WordLength(w + s) == |w|
    decreases |w|
  {
    if w != [] {
      assert (w + s)[1..] == w[1..] + s;
      WordLengthOf(w[1..], s);
    }
  }

  /** Trailing whitespace adds no word. */
  lemma {:induction false} WordsOfSpaceSuffix(s: string, b: string)
    requires AllSpace(b)
    ensures Words(s + b) == Words(s)
    decreases |s|
  {
    if s == [] {
      assert s + b == b;
      WordsOfAllSpace(b);
    } else if IsSpace(s[0]) {
      assert (s + b)[1..] == s[1..] + b;
      WordsOfSpaceSuffix(s[1..], b);
    } else {
      var n := WordLength(s);
      var w, r := s[..n], s[n..];
      assert s == w + r;
      assert s + b == w + (r + b);
      if r == [] {
        assert s == w && w + [] == w;
        WordsOfWordLed(w, []);
        if b == [] {
          assert s + b == s;
        } else {
          WordsOfWordLed(w, b);
          WordsOfAllSpace(b);
        }
      } else {
        WordsOfWordLed(w, r + b);
        WordsOfSpaceSuffix(r, b);
        WordsOfWordLed(w, r);
      }
    }
  }

  /** Words separated by whitespace are counted separately: joining never merges or
      splits words. */
  lemma {:induction false} WordsOfJoin(a: string, c: char, b: string)
    requires IsSpace(c)
    ensures Words(a + [c] + b) == Words(a) + Words(b)
    decreases |a|, 1
  {
    if a == [] {
      assert a + [c] + b == [c] + b;
      WordsOfSpaceLed(c, b);
    } else if IsSpace(a[0]) {
      assert (a + [c] + b)[1..] == a[1..] + [c] + b;
      WordsOfJoin(a[1..], c, b);
    } else {
      WordsOfJoinWordLed(a, c, b);
    }
  }

  /** The word-led case of `WordsOfJoin`: the leading word is split off on both sides. */
  lemma {:induction false} WordsOfJoinWordLed(a: string, c: char, b: string)
    requires IsSpace(c) && a != [] && !IsSpace(a[0])
    ensures Words(a + [c] + b) == Words(a) + Words(b)
    decreases |a|, 0
  {
    var n := WordLength(a);
    var w, r := a[..n], a[n..];
    assert a == w + r;
    assert a + [c] + b == w + (r + [c] + b);
    WordsOfWordLed(w, r + [c] + b);
    WordsOfWordLed(w, r);
    if r == [] {
      assert r + [c] + b == [c] + b;
      WordsOfSpaceLed(c, b);
    } else {
      WordsOfJoin(r, c, b);
    }
  }

  /** Leading whitespace adds no word. */
  lemma WordsOfTrimStart(s: string)
    ensures Words(TrimStart(s)) == Words(s)
  {
    var n := LeadingSpaces(s);
    assert s == s[..n] + s[n..];
    WordsOfSpacePrefix(s[..n], s[n..]);
  }

  lemma WordsOfTrimEnd(t: string)
    ensures Words(TrimEnd(t)) == Words(t)
  {
    var m := |t| - TrailingSpaces(t);
    assert t == t[..m] + t[m..];
    WordsOfSpaceSuffix(t[..m], t[m..]);
  }

  /** `trim()` changes no word. */
  lemma WordsOfTrim(s: string)
    ensures Words(Trim(s)) == Words(s)
  {
    WordsOfTrimStart(s);
    WordsOfTrimEnd(TrimStart(s));
  }

  // ---------------------------------------------------------------------------
  // split on a character class, `s.split(/[...]+/)`
  // ---------------------------------------------------------------------------

  /** No character of `s` is a delimiter. */
  predicate Without(s: string, delim: char -> bool)
  {
    forall i :: 0 <= i < |s| ==> !delim(s[i])
  }

  /** Every character of `s` is a delimiter. */
  predicate AllOf(s: string, delim: char -> bool)
  {
    forall i :: 0 <= i < |s| ==> delim(s[i])
  }

  /** Length of the leading run of characters that are not delimiters. */
  function PieceLength(s: string, delim: char -> bool): (n: nat)
    ensures n <= |s| && (n < |s| ==> delim(s[n]))
    ensures forall i :: 0 <= i < n ==> !delim(s[i])
  {
    if s == [] || delim(s[0]) then 0
    else
      var n := 1 + PieceLength(s[1..], delim);
      assert forall i :: 1 <= i < n ==> s[i] == s[1..][i - 1];
      n
  }

  /** `s.split(re)` for a regular expression `[set]+`: the pieces between maximal runs of
      delimiters, keeping the empty piece before a leading run and after a trailing one
      (so `"".split(re)` is `[""]`). Read from the front: a character that is not a
      delimiter starts the first piece of the rest; a delimiter ends an empty first piece,
      unless the next character is a delimiter too and so belongs to the same run. */
  function Split(s: string, delim: char -> bool): (ps: seq<string>)
    ensures |ps| >= 1
    ensures forall k :: 0 <= k < |ps| ==> Without(ps[k], delim)
    decreases |s|
  {
    if s == [] then [[]]
    else
      var ps := Split(s[1..], delim);
      if !delim(s[0]) then
        var p := [s[0]] + ps[0];
        assert forall i :: 1 <= i < |p| ==> p[i] == ps[0][i - 1];
        [p] + ps[1..]
      else if |s| > 1 && delim(s[1]) then ps
      else [[]] + ps
  }

  /** A text without delimiters is one piece. */
  lemma {:induction false} SplitOfPiece(p: string, delim: char -> bool)
    requires Without(p, delim)
    ensures Split(p, delim) == [p]
    decreases |p|
  {
    if p != [] {
      SplitOfPiece(p[1..], delim);
      assert [p[0]] + p[1..] == p;
    }
  }

  /** A delimiter-free prefix is the start of the first piece. */
  lemma {:induction false} SplitOfPrefix(p: string, t: string, delim: char -> bool)
    requires Without(p, delim)
    ensures Split(p + t, delim) == [p + Split(t, delim)[0]] + Split(t, delim)[1..]
    decreases |p|
  {
    var ts := Split(t, delim);
    if p == [] {
      assert p + t == t && p + ts[0] == ts[0];
      assert [ts[0]] + ts[1..] == ts;
    } else {
      assert (p + t)[1..] == p[1..] + t;
      SplitOfPrefix(p[1..], t, delim);
      assert [p[0]] + (p[1..] + Split(t, delim)[0]) == p + Split(t, delim)[0];
    }
  }

  /** A maximal run of delimiters in front ends an empty first piece. */
  lemma {:induction false} SplitOfRun(r: string, rest: string, delim: char -> bool)
    requires r != [] && AllOf(r, delim)
    requires rest == [] || !delim(rest[0])
    ensures Split(r + rest, delim) == [[]] + Split(rest, delim)
    decreases |r|
  {
    var s := r + rest;
    assert s[0] == r[0] && s[1..] == r[1..] + rest;
    if |r| == 1 {
      assert s[1..] == rest;
    } else {
      assert s[1] == r[1];
      SplitOfRun(r[1..], rest, delim);
    }
  }

  /** A delimiter-free piece followed by a maximal run of delimiters is split off as one
      piece, and the run itself is dropped. */
  lemma SplitOfJoin(p: string, r: string, rest: string, delim: char -> bool)
    requires Without(p, delim) && r != [] && AllOf(r, delim)
    requires rest == [] || !delim(rest[0])
    ensures Split(p + r + rest, delim) == [p] + Split(rest, delim)
  {
    assert p + r + rest == p + (r + rest);
    SplitOfPrefix(p, r + rest, delim);
    SplitOfRun(r, rest, delim);
    assert p + [] == p;
  }

  /** `s` with every delimiter character taken out. */
  function RemoveAll(s: string, delim: char -> bool): string
  {
    if s == [] then [] else (if delim(s[0]) then [] else [s[0]]) + RemoveAll(s[1..], delim)
  }

  /** The pieces, put back together, are the text without its delimiters: `split` loses
      exactly the delimiter runs and nothing else. */
  lemma {:induction false} SplitConcat(s: string, delim: char -> bool)
    ensures Concat(Split(s, delim)) == RemoveAll(s, delim)
    decreases |s|
  {
    if s == [] {
      var e: string := [];
      ConcatCons(e, []);
    } else {
      var ps := Split(s[1..], delim);
      SplitConcat(s[1..], delim);
      ConcatCons(ps[0], ps[1..]);
      assert [ps[0]] + ps[1..] == ps;
      if !delim(s[0]) {
        ConcatCons([s[0]] + ps[0], ps[1..]);
      } else if !(|s| > 1 && delim(s[1])) {
        ConcatCons([], ps);
      }
    }
  }

  lemma {:induction false} ConcatCons(p: string, ps: seq<string>)
    ensures Concat([p] + ps) == p + Concat(ps)
  {
    assert ([p] + ps)[1..] == ps;
  }

  predicate IsSentenceMark(c: char)
  {
    c == '.' || c == '!' || c == '?'
  }

  /** `s.split(/[.!?]+/).filter((x) => x.trim().length > 0)`. */
  function Sentences(s: string): (ss: seq<string>)
    ensures forall k :: 0 <= k < |ss| ==> Trim(ss[k]) != [] && Without(ss[k], IsSentenceMark)
  {
    var pieces := Split(s, IsSentenceMark);
    FilterNonBlank(pieces)
  }

  function FilterNonBlank(ps: seq<string>): (r: seq<string>)
    ensures forall k :: 0 <= k < |r| ==> Trim(r[k]) != [] && r[k] in ps
    ensures |r| <= |ps|
  {
    if ps == [] then []
    else if Trim(ps[0]) != [] then [ps[0]] + FilterNonBlank(ps[1..])
    else FilterNonBlank(ps[1..])
  }

  /** A text without sentence marks is one sentence, unless it is blank. */
  lemma SentencesOfPiece(p: string)
    requires Without(p, IsSentenceMark)
    ensures Sentences(p) == if Trim(p) != [] then [p] else []
  {
    SplitOfPiece(p, IsSentenceMark);
    assert [p][1..] == [];
  }

  /** A sentence ended by a run of marks is counted once, when it is not blank, before the
      sentences of the rest. */
  lemma SentencesOfJoin(p: string, marks: string, rest: string)
    requires Without(p, IsSentenceMark) && marks != [] && AllOf(marks, IsSentenceMark)
    requires rest == [] || !IsSentenceMark(rest[0])
    ensures Sentences(p + marks + rest) == (if Trim(p) != [] then [p] else []) + Sentences(rest)
  {
    SplitOfJoin(p, marks, rest, IsSentenceMark);
    var ps := [p] + Split(rest, IsSentenceMark);
    assert ps[0] == p && ps[1..] == Split(rest, IsSentenceMark);
  }

  // ---------------------------------------------------------------------------
  // startsWith, includes, toLowerCase
  // ---------------------------------------------------------------------------

  predicate StartsWith(s: string, prefix: string)
  {
    |prefix| <= |s| && s[..|prefix|] == prefix
  }

  predicate Includes(s: string, part: string)
  {
    exists i :: 0 <= i <= |s| - |part| && OccursAt(s, part, i)
  }

  predicate OccursAt(s: string, part: string, i: nat)
  {
    i + |part| <= |s| && s[i..i + |part|] == part
  }

  predicate IsUpperAscii(c: char)
  {
    'A' <= c <= 'Z'
  }

  /** The lower case of one character, for the characters whose lower case holds an ASCII
      letter: `A`-`Z`, U+212A KELVIN SIGN (to `k`) and U+0130 LATIN CAPITAL LETTER I WITH
      DOT ABOVE (to `i` and U+0307). Every other character is kept as it is. */
  function LowerOf(c: char): string
  {
    if IsUpperAscii(c) then [(c as int + 32) as char]
    else if c == '\U{212A}' then "k"
    else if c == '\U{0130}' then "i\U{0307}"
    else [c]
  }

  predicate LowerAlready(c: char)
  {
    !IsUpperAscii(c) && c != '\U{212A}' && c != '\U{0130}'
  }

  /** `toLowerCase()`, as far as it can put ASCII letters into a string. */
  function ToLower(s: string): (r: string)
    ensures |s| <= |r|
    ensures forall i :: 0 <= i < |r| ==> LowerAlready(r[i])
    decreases |s|
  {
    if s == [] then [] else LowerOf(s[0]) + ToLower(s[1..])
  }

  lemma {:induction false} ToLowerAppend(a: string, b: string)
    ensures ToLower(a + b) == ToLower(a) + ToLower(b)
    decreases |a|
  {
    if a == [] {
      assert a + b == b;
    } else {
      assert (a + b)[0] == a[0];
      assert (a + b)[1..] == a[1..] + b;
      ToLowerAppend(a[1..], b);
    }
  }

  /** A string with nothing to lower is its own lower case. */
  lemma {:induction false} ToLowerOfLower(s: string)
    requires forall i :: 0 <= i < |s| ==> LowerAlready(s[i])
    ensures ToLower(s) == s
    decreases |s|
  {
    if s != [] {
      ToLowerOfLower(s[1..]);
    }
  }

  /** Lowering is idempotent. */
  lemma ToLowerIdempotent(s: string)
    ensures ToLower(ToLower(s)) == ToLower(s)
  {
    ToLowerOfLower(ToLower(s));
  }

  // ---------------------------------------------------------------------------
  // parseInt(s, 10) and the decimal text of a number
  // ---------------------------------------------------------------------------

  /** A JavaScript number as the parsers here can produce it: `NaN` or an integer. */
  datatype Number = NaN | Int(value: int)

  predicate IsDigit(c: char)
  {
    '0' <= c <= '9'
  }

  function DigitRun(s: string): (n: nat)
    ensures n <= |s| && (forall i :: 0 <= i < n ==> IsDigit(s[i])) && (n < |s| ==> !IsDigit(s[n]))
  {
    if s == [] || !IsDigit(s[0]) then 0
    else
      var n := 1 + DigitRun(s[1..]);
      assert forall i :: 1 <= i < n ==> s[i] == s[1..][i - 1];
      n
  }

  function DigitValue(c: char): (d: nat)
    requires IsDigit(c)
    ensures d < 10
  {
    c as int - '0' as int
  }

  function DigitsValue(ds: string): nat
    requires forall i :: 0 <= i < |ds| ==> IsDigit(ds[i])
  {
    if ds == [] then 0
    else 10 * DigitsValue(ds[..|ds| - 1]) + DigitValue(ds[|ds| - 1])
  }

  /** `parseInt(s, 10)`: skip leading whitespace, read an optional sign and the longest
      run of decimal digits; `NaN` when there is no digit. */
  function ParseInt(s: string): (r: Number)
  {
    var t := TrimStart(s);
    var negative := t != [] && t[0] == '-';
    var u := if t != [] && (t[0] == '-' || t[0] == '+') then t[1..] else t;
    var n := DigitRun(u);
    if n == 0 then NaN
    else
      var v: int := DigitsValue(u[..n]);
      Int(if negative then -v else v)
  }

  function DigitChar(d: nat): char
    requires d < 10
  {
    ('0' as int + d) as char
  }

  /** The decimal text of a non-negative integer, as `${n}` renders it. */
  function DecimalString(n: nat): (s: string)
    ensures s != [] && forall i :: 0 <= i < |s| ==> IsDigit(s[i])
  {
    if n < 10 then [DigitChar(n)] else DecimalString(n / 10) + [DigitChar(n % 10)]
  }

  /** The decimal text reads back as the same number. */
  lemma {:induction false} DecimalStringValue(n: nat)
    ensures DigitsValue(DecimalString(n)) == n
  {
    if n >= 10 {
      DecimalStringValue(n / 10);
      var s := DecimalString(n);
      assert s[..|s| - 1] == DecimalString(n / 10);
    }
  }

  /** `parseInt` inverts the decimal rendering. */
  lemma ParseIntOfDecimal(n: nat)
    ensures ParseInt(DecimalString(n)) == Int(n)
  {
    var s := DecimalString(n);
    assert LeadingSpaces(s) == 0;
    DigitRunAll(s);
    assert s[..|s|] == s;
    DecimalStringValue(n);
  }

  lemma {:induction false} DigitRunAll(s: string)
    requires forall i :: 0 <= i < |s| ==> IsDigit(s[i])
    ensures DigitRun(s) == |s|
    decreases |s|
  {
    if s != [] { DigitRunAll(s[1..]); }
  }

  /** `parseInt` reads a rendered number back from the front of a longer text, such as
      the status code at the head of `"404: Not Found"`. */
  lemma ParseIntOfDecimalThen(n: nat, rest: string)
    requires rest == [] || !IsDigit(rest[0])
    ensures ParseInt(DecimalString(n) + rest) == Int(n)
  {
    var d := DecimalString(n);
    var s := d + rest;
    assert s[0] == d[0] && IsDigit(s[0]);
    assert LeadingSpaces(s) == 0;
    assert TrimStart(s) == s;
    DigitRunAll(d);
    DigitRunThen(d, rest);
    assert s[..|d|] == d;
    DecimalStringValue(n);
  }

  lemma {:induction false} DigitRunThen(d: string, rest: string)
    requires forall i :: 0 <= i < |d| ==> IsDigit(d[i])
    requires rest == [] || !IsDigit(rest[0])
    ensures DigitRun(d + rest) == |d|
    decreases |d|
  {
    if d == [] {
      assert d + rest == rest;
    } else {
      assert (d + rest)[1..] == d[1..] + rest;
      DigitRunThen(d[1..], rest);
    }
  }

  /** `trim()` leaves nothing exactly when the string is all whitespace. */
  lemma TrimEmptyIffAllSpace(s: string)
    ensures Trim(s) == [] <==> AllSpace(s)
  {
    var t := TrimStart(s);
    TrimStartEmptyIff(s);
    TrimEndEmptyIff(t);
    if t != [] {
      assert t[0] == s[LeadingSpaces(s)];
    }
  }

  lemma TrimStartEmptyIff(s: string)
    ensures TrimStart(s) == [] <==> AllSpace(s)
  {
    var n := LeadingSpaces(s);
    if TrimStart(s) == [] {
      assert s[..n] == s;
    }
  }

  lemma TrimEndEmptyIff(t: string)
    ensures TrimEnd(t) == [] <==> AllSpace(t)
  {
    var m := TrailingSpaces(t);
    if TrimEnd(t) == [] {
      assert t[|t| - m..] == t;
    }
  }

  /** What `trim()` keeps is a contiguous part of the string. */
  lemma TrimIsSlice(s: string) returns (i: nat, j: nat)
    ensures i <= j <= |s| && Trim(s) == s[i..j]
  {
    var t := TrimStart(s);
    i := LeadingSpaces(s);
    j := i + |t| - TrailingSpaces(t);
    assert Trim(s) == t[..|t| - TrailingSpaces(t)];
  }
}
