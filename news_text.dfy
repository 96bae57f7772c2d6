/** The string side of the news content extractor: the validity test a candidate text
    must pass, `cleanText` and `countWords`. */
module NewsText {
  import opened Wrappers
  import opened JsString

  /** `isValidContent`: a `length` of at least 100 (UTF-16 code units), at least 20
      words and at least three non-blank pieces between runs of `.`, `!` and `?`. (The
      empty string fails the length test.) */
  predicate IsValidContent(s: string)
  {
    s != [] && Utf16Length(s) >= 100 && |Words(s)| >= 20 && |Sentences(s)| >= 3
  }

  /** What a text that passes the validity test has: a `length` of at least 100, so at
      least 50 characters; at least 20 words, each non-empty and free of whitespace; and
      at least three sentence pieces, none of them blank or holding a sentence mark. */
  lemma ValidContentShape(s: string)
    requires IsValidContent(s)
    ensures Utf16Length(s) >= 100 && |s| >= 50
    ensures |Words(s)| >= 20 && forall k :: 0 <= k < |Words(s)| ==> Words(s)[k] != [] && NoSpace(Words(s)[k])
    ensures |Sentences(s)| >= 3 &&
            forall k :: 0 <= k < |Sentences(s)| ==> Trim(Sentences(s)[k]) != [] && Without(Sentences(s)[k], IsSentenceMark)
  {
  }

  // ---------------------------------------------------------------------------
  // cleanText: .replace(/\s+/g, " ").replace(/\n\s*\n/g, "\n\n").trim()
  // ---------------------------------------------------------------------------

  /** Every whitespace character is a plain space and no two of them are adjacent. */
  predicate Collapsed(r: string)
  {
    (forall i :: 0 <= i < |r| && IsSpace(r[i]) ==> r[i] == ' ') &&
    (forall i :: 0 <= i < |r| - 1 ==> !(IsSpace(r[i]) && IsSpace(r[i + 1])))
  }

  /** `s.replace(/\s+/g, " ")`: each maximal run of whitespace becomes one space. */
  function Collapse(s: string): (r: string)
    ensures Collapsed(r)
    ensures s == [] <==> r == []
    ensures s != [] ==> r[0] == if IsSpace(s[0]) then ' ' else s[0]
    decreases |s|
  {
    if s == [] then []
    else if IsSpace(s[0]) then
      var rest := s[LeadingSpaces(s)..];
      " " + Collapse(rest)
    else [s[0]] + Collapse(s[1..])
  }

  /** Index of the last newline of `t`, if any. */
  function LastNewline(t: string): (k: Option<nat>)
    ensures k.Some? ==> k.value < |t| && t[k.value] == '\n'
    ensures k.None? ==> forall i :: 0 <= i < |t| ==> t[i] != '\n'
  {
    if t == [] then None
    else if t[|t| - 1] == '\n' then Some(|t| - 1)
    else LastNewline(t[..|t| - 1])
  }

  /** `s.replace(/\n\s*\n/g, "\n\n")`, scanning left to right: a match starts at a
      newline and, since `\s*` is greedy and gives back characters only until a newline
      can follow, ends just after the last newline of the whitespace run behind it. */
  function BlankLines(s: string): string
    decreases |s|
  {
    if s == [] then []
    else if s[0] == '\n' then
      var t := s[1..];
      match LastNewline(t[..LeadingSpaces(t)])
      case Some(k) => "\n\n" + BlankLines(t[k + 1..])
      case None => [s[0]] + BlankLines(t)
    else [s[0]] + BlankLines(s[1..])
  }

  /** `cleanText`. */
  function CleanText(s: string): string
  {
    Trim(BlankLines(Collapse(s)))
  }

  predicate NoNewline(s: string)
  {
    forall i :: 0 <= i < |s| ==> s[i] != '\n'
  }

  /** The blank-line rule changes nothing in a text without newlines. */
  lemma {:induction false} BlankLinesWithoutNewline(s: string)
    requires NoNewline(s)
    ensures BlankLines(s) == s
    decreases |s|
  {
    if s != [] {
      assert NoNewline(s[1..]) by {
        forall i | 0 <= i < |s[1..]| ensures s[1..][i] != '\n' { assert s[1..][i] == s[i + 1]; }
      }
      BlankLinesWithoutNewline(s[1..]);
    }
  }

  /** Because whitespace runs are collapsed to spaces first, the blank-line rule of
      `cleanText` never finds a newline to act on. */
  lemma BlankLineRuleIsInert(s: string)
    ensures BlankLines(Collapse(s)) == Collapse(s)
  {
    var c := Collapse(s);
    assert NoNewline(c) by {
      forall i | 0 <= i < |c| ensures c[i] != '\n' {
        assert IsSpace('\n');
      }
    }
    BlankLinesWithoutNewline(c);
  }

  /** The output of `cleanText` has no leading or trailing whitespace, no two adjacent
      whitespace characters, no newline, and only plain spaces as whitespace. */
  lemma CleanTextShape(s: string)
    ensures var r := CleanText(s);
      (r == [] || (!IsSpace(r[0]) && !IsSpace(r[|r| - 1]))) &&
      Collapsed(r) &&
      NoNewline(r)
  {
    BlankLineRuleIsInert(s);
    var c := Collapse(s);
    var i, j := TrimIsSlice(c);
    CollapsedSlice(c, i, j);
    CollapsedNoNewline(c[i..j]);
  }

  lemma CollapsedSlice(c: string, i: nat, j: nat)
    requires i <= j <= |c| && Collapsed(c)
    ensures Collapsed(c[i..j])
  {
    var r := c[i..j];
    assert forall k :: 0 <= k < |r| ==> r[k] == c[i + k];
  }

  lemma CollapsedNoNewline(r: string)
    requires Collapsed(r)
    ensures NoNewline(r)
  {
    assert IsSpace('\n');
  }

  /** Collapsing a collapsed text changes nothing. */
  lemma {:induction false} CollapseOfCollapsed(r: string)
    requires Collapsed(r)
    ensures Collapse(r) == r
    decreases |r|
  {
    if r != [] {
      var t := r[1..];
      CollapsedSlice(r, 1, |r|);
      CollapseOfCollapsed(t);
      if IsSpace(r[0]) {
        assert t == [] || !IsSpace(t[0]);
        assert LeadingSpaces(t) == 0;
        assert LeadingSpaces(r) == 1;
        assert Collapse(r) == " " + Collapse(t);
        assert r == [r[0]] + t;
      } else {
        assert Collapse(r) == [r[0]] + Collapse(t);
        assert r == [r[0]] + t;
      }
    }
  }

  /** `cleanText` is idempotent. */
  lemma CleanTextIdempotent(s: string)
    ensures CleanText(CleanText(s)) == CleanText(s)
  {
    var r := CleanText(s);
    CleanTextShape(s);
    CollapseOfCollapsed(r);
    BlankLinesWithoutNewline(r);
    TrimOfUnpadded(r);
  }

  /** A word in front of the text passes through the collapse untouched. */
  lemma {:induction false} CollapseWordLed(w: string, t: string)
    requires NoSpace(w)
    ensures Collapse(w + t) == w + Collapse(t)
    decreases |w|
  {
    if w == [] {
      assert w + t == t;
    } else {
      assert (w + t)[0] == w[0] && !IsSpace(w[0]);
      assert (w + t)[1..] == w[1..] + t;
      assert NoSpace(w[1..]) by {
        forall k | 0 <= k < |w[1..]| ensures !IsSpace(w[1..][k]) { assert w[1..][k] == w[k + 1]; }
      }
      CollapseWordLed(w[1..], t);
    }
  }

  /** Collapsing whitespace neither merges nor splits words. */
  lemma {:induction false} WordsOfCollapse(s: string)
    ensures Words(Collapse(s)) == Words(s)
    decreases |s|
  {
    if s == [] {
    } else if IsSpace(s[0]) {
      var n := LeadingSpaces(s);
      var rest := s[n..];
      assert s == s[..n] + rest;
      WordsOfSpacePrefix(s[..n], rest);
      WordsOfCollapse(rest);
      WordsOfSpaceLed(' ', Collapse(rest));
    } else {
      var n := WordLength(s);
      var w, t := s[..n], s[n..];
      assert s == w + t;
      CollapseWordLed(w, t);
      WordsOfCollapse(t);
      WordsOfWordLed(w, Collapse(t));
    }
  }

  /** `cleanText` keeps every word, in order: so `countWords` of the cleaned text is the
      word count the validity test saw. */
  lemma WordsOfCleanText(s: string)
    ensures Words(CleanText(s)) == Words(s)
  {
    BlankLineRuleIsInert(s);
    WordsOfTrim(Collapse(s));
    WordsOfCollapse(s);
  }

  /** A blank line between paragraphs does not survive `cleanText`: the paragraphs are
      joined by one space. */
  lemma ParagraphBreakIsLost()
    ensures CleanText("a\n\nb") == "a b"
  {
    var s := "a\n\nb";
    assert LeadingSpaces("b") == 0;
    assert "\nb"[1..] == "b";
    assert LeadingSpaces("\nb") == 1;
    assert "\n\nb"[1..] == "\nb";
    assert LeadingSpaces("\n\nb") == 2;
    assert "\n\nb"[2..] == "b";
    assert Collapse("b") == "b" by { assert "b"[1..] == []; }
    assert Collapse("\n\nb") == " b";
    assert s[1..] == "\n\nb";
    assert Collapse(s) == "a b";
    BlankLineRuleIsInert(s);
    assert LeadingSpaces("a b") == 0;
    assert TrailingSpaces("a b") == 0;
  }
}
