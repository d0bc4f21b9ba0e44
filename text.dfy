/**
 * The normalisation applied to the text of each fetched update before it is
 * printed (src/BotManager.php, handleGetUpdates):
 * `preg_replace('/\s+/', ' ', trim($text))`.
 *
 * `trim()` strips " \t\n\r\0\x0B" while PCRE `\s` (no `u` flag) matches
 * " \t\n\x0B\x0C\r". The two sets differ in the form feed \x0C, so a text that
 * begins or ends with a form feed keeps a space at that end.
 * `NormalizeAsWritten` is the code as written; `NormalizeText` trims after
 * collapsing, which gives the single-spaced, unpadded text the code aims at.
 */
module UpdateText {
  import opened Php

  const FormFeed: char := 12 as char

  /** Every white-space character is a plain space, and no two spaces are adjacent. */
  predicate SingleSpaced(r: string)
  {
    && (forall i :: 0 <= i < |r| && IsCSpace(r[i]) ==> r[i] == ' ')
    && (forall i :: 0 <= i < |r| - 1 && r[i] == ' ' ==> r[i + 1] != ' ')
  }

  /** The characters of `s` that are not white space, in order. */
  function Visible(s: string): string
  {
    if s == [] then []
    else if IsCSpace(s[0]) then Visible(s[1..])
    else [s[0]] + Visible(s[1..])
  }

  /** `preg_replace('/\s+/', ' ', $s)`: each maximal run of white space becomes one space. */
  function CollapseSpaces(s: string): (r: string)
    ensures SingleSpaced(r)
    ensures r == [] <==> s == []
    ensures r != [] ==> (r[0] == ' ' <==> IsCSpace(s[0]))
    ensures r != [] ==> (r[|r| - 1] == ' ' <==> IsCSpace(s[|s| - 1]))
    ensures r != [] && !IsCSpace(s[0]) ==> r[0] == s[0]
    ensures r != [] && !IsCSpace(s[|s| - 1]) ==> r[|r| - 1] == s[|s| - 1]
    decreases |s|
  {
    if s == [] then []
    else if IsCSpace(s[0]) then
      var n := LeadingPad(s, IsCSpace);
      var rest := CollapseSpaces(s[n..]);
      assert n == |s| ==> forall j :: 0 <= j < |s| ==> IsCSpace(s[j]);
      assert rest != [] ==> s[n..][|s[n..]| - 1] == s[|s| - 1];
      [' '] + rest
    else
      var rest := CollapseSpaces(s[1..]);
      assert rest != [] ==> s[1..][|s[1..]| - 1] == s[|s| - 1];
      [s[0]] + rest
  }

  lemma {:induction false} VisibleOfSpaces(s: string)
    requires forall j :: 0 <= j < |s| ==> IsCSpace(s[j])
    ensures Visible(s) == []
  {
    if s != [] {
      VisibleOfSpaces(s[1..]);
    }
  }

  lemma {:induction false} VisibleAppend(a: string, b: string)
    ensures Visible(a + b) == Visible(a) + Visible(b)
  {
    if a == [] {
      assert a + b == b;
    } else {
      assert (a + b)[1..] == a[1..] + b;
      VisibleAppend(a[1..], b);
    }
  }

  /** Collapsing white space keeps every other character, in order. */
  lemma {:induction false} CollapseKeepsVisible(s: string)
    ensures Visible(CollapseSpaces(s)) == Visible(s)
    decreases |s|
  {
    if s != [] {
      if IsCSpace(s[0]) {
        var n := LeadingPad(s, IsCSpace);
        CollapseKeepsVisible(s[n..]);
        assert s == s[..n] + s[n..];
        VisibleAppend(s[..n], s[n..]);
        VisibleOfSpaces(s[..n]);
        assert ([' '] + CollapseSpaces(s[n..]))[1..] == CollapseSpaces(s[n..]);
      } else {
        CollapseKeepsVisible(s[1..]);
        assert ([s[0]] + CollapseSpaces(s[1..]))[1..] == CollapseSpaces(s[1..]);
      }
    }
  }

  /** Text that is already single-spaced is left as it is. */
  lemma {:induction false} CollapseFixpoint(s: string)
    requires SingleSpaced(s)
    ensures CollapseSpaces(s) == s
    decreases |s|
  {
    if s != [] {
      assert SingleSpaced(s[1..]) by {
        forall i | 0 <= i < |s[1..]|
          ensures s[1..][i] == s[i + 1]
        {
        }
      }
      CollapseFixpoint(s[1..]);
      if IsCSpace(s[0]) {
        assert LeadingPad(s, IsCSpace) == 1 by {
          assert s[0] == ' ';
          if |s| > 1 {
            assert !IsCSpace(s[1]);
          }
          LeadingPadUnique(s, IsCSpace, 1);
        }
        assert CollapseSpaces(s) == [' '] + s[1..];
      } else {
        assert CollapseSpaces(s) == [s[0]] + s[1..];
      }
      assert s == [s[0]] + s[1..];
    }
  }

  /** A non-empty run made only of white space becomes a single space. */
  lemma CollapseRun(w: string)
    requires w != [] && forall j :: 0 <= j < |w| ==> IsCSpace(w[j])
    ensures CollapseSpaces(w) == " "
  {
    LeadingPadUnique(w, IsCSpace, |w|);
    assert w[|w|..] == [];
  }

  /** A character that is not white space is kept as it is. */
  lemma CollapseOther(c: char)
    requires !IsCSpace(c)
    ensures CollapseSpaces([c]) == [c]
  {
    assert [c][1..] == [];
  }

  /**
   * Collapsing works piece by piece wherever the cut does not fall inside a run
   * of white space. With CollapseRun and CollapseOther this determines the
   * result for every text: split it into its maximal runs of white space and
   * the characters between them.
   */
  lemma {:induction false} CollapseAppend(a: string, b: string)
    requires a == [] || b == [] || !IsCSpace(a[|a| - 1]) || !IsCSpace(b[0])
    ensures CollapseSpaces(a + b) == CollapseSpaces(a) + CollapseSpaces(b)
    decreases |a|, 1
  {
    if a == [] {
      assert a + b == b;
    } else if b == [] {
      assert a + b == a;
    } else if !IsCSpace(a[0]) {
      CollapseAppendAfterChar(a, b);
    } else {
      CollapseAppendAfterRun(a, b);
    }
  }

  lemma {:induction false} CollapseAppendAfterChar(a: string, b: string)
    requires a != [] && b != [] && !IsCSpace(a[0])
    requires !IsCSpace(a[|a| - 1]) || !IsCSpace(b[0])
    ensures CollapseSpaces(a + b) == CollapseSpaces(a) + CollapseSpaces(b)
    decreases |a|, 0
  {
    assert (a + b)[0] == a[0] && (a + b)[1..] == a[1..] + b;
    assert a[1..] != [] ==> a[1..][|a[1..]| - 1] == a[|a| - 1];
    calc {
      CollapseSpaces(a + b);
      [a[0]] + CollapseSpaces(a[1..] + b);
      { CollapseAppend(a[1..], b); }
      [a[0]] + (CollapseSpaces(a[1..]) + CollapseSpaces(b));
      { ConcatAssoc([a[0]], CollapseSpaces(a[1..]), CollapseSpaces(b)); }
      ([a[0]] + CollapseSpaces(a[1..])) + CollapseSpaces(b);
    }
  }

  lemma {:induction false} CollapseAppendAfterRun(a: string, b: string)
    requires a != [] && b != [] && IsCSpace(a[0])
    requires !IsCSpace(a[|a| - 1]) || !IsCSpace(b[0])
    ensures CollapseSpaces(a + b) == CollapseSpaces(a) + CollapseSpaces(b)
    decreases |a|, 0
  {
    var m := LeadingPad(a, IsCSpace);
    assert (a + b)[0] == a[0];
    if m < |a| {
      LeadingPadUnique(a + b, IsCSpace, m);
      assert (a + b)[m..] == a[m..] + b;
      assert a[m..][|a[m..]| - 1] == a[|a| - 1];
      calc {
        CollapseSpaces(a + b);
        [' '] + CollapseSpaces(a[m..] + b);
        { CollapseAppend(a[m..], b); }
        [' '] + (CollapseSpaces(a[m..]) + CollapseSpaces(b));
        { ConcatAssoc([' '], CollapseSpaces(a[m..]), CollapseSpaces(b)); }
        ([' '] + CollapseSpaces(a[m..])) + CollapseSpaces(b);
      }
    } else {
      LeadingPadUnique(a + b, IsCSpace, |a|);
      assert (a + b)[|a|..] == b;
      calc {
        CollapseSpaces(a + b);
        [' '] + CollapseSpaces(b);
        { assert CollapseSpaces(a) == [' '] + CollapseSpaces(a[|a|..]) == [' ']; }
        CollapseSpaces(a) + CollapseSpaces(b);
      }
    }
  }

  // Proof helper with no counterpart in the source: associativity of concatenation, stated for the solver.
  lemma ConcatAssoc(x: string, y: string, z: string)
    ensures x + (y + z) == (x + y) + z
  {
  }

  /** A character that white-space collapsing or `trim()` treats as blank. */
  predicate IsBlank(c: char)
  {
    IsTrimChar(c) || IsCSpace(c)
  }

  /** Collapsing a text made only of blanks leaves only characters `trim()` strips. */
  lemma {:induction false} CollapseBlanks(x: string)
    requires AllPad(x, IsBlank)
    ensures AllPad(CollapseSpaces(x), IsTrimChar)
    decreases |x|
  {
    if x != [] {
      if IsCSpace(x[0]) {
        var n := LeadingPad(x, IsCSpace);
        assert AllPad(x[n..], IsBlank) by {
          forall j | 0 <= j < |x[n..]|
            ensures IsBlank(x[n..][j])
          {
            assert x[n..][j] == x[n + j];
          }
        }
        CollapseBlanks(x[n..]);
      } else {
        assert AllPad(x[1..], IsBlank) by {
          forall j | 0 <= j < |x[1..]|
            ensures IsBlank(x[1..][j])
          {
            assert x[1..][j] == x[1 + j];
          }
        }
        CollapseBlanks(x[1..]);
      }
    }
  }

  /** Trimming collapsed text is collapsing the text with its blanks stripped from both ends. */
  lemma TrimCollapse(x: string)
    ensures Trim(CollapseSpaces(x)) == CollapseSpaces(Strip(x, IsBlank))
  {
    var a, m := LeadingPad(x, IsBlank), Strip(x, IsBlank);
    if m == [] {
      var c := CollapseSpaces(x);
      assert AllPad(c, IsTrimChar) by {
        CollapseBlanks(x);
      }
      assert c == c + [] + [];
      StripFramed(c, c, [], [], IsTrimChar);
    } else {
      var l, y := x[..a], x[a + |m|..];
      assert x == l + m + y && AllPad(l, IsBlank) && AllPad(y, IsBlank) by {
        StripSplit(x, IsBlank);
      }
      var cl, cm, cy := CollapseSpaces(l), CollapseSpaces(m), CollapseSpaces(y);
      assert AllPad(cl, IsTrimChar) && AllPad(cy, IsTrimChar) by {
        CollapseBlanks(l);
        CollapseBlanks(y);
      }
      assert CollapseSpaces(x) == cl + cm + cy by {
        assert (m + y)[0] == m[0];
        CollapseAppend(m, y);
        CollapseAppend(l, m + y);
        ConcatAssoc(l, m, y);
        ConcatAssoc(cl, cm, cy);
      }
      assert !IsTrimChar(cm[0]) && !IsTrimChar(cm[|cm| - 1]);
      StripFramed(CollapseSpaces(x), cl, cm, cy, IsTrimChar);
    }
  }

  /** Whatever `trim()` strips is blank. */
  lemma TrimmedIsBlank(x: string)
    requires AllPad(x, IsTrimChar)
    ensures AllPad(x, IsBlank)
  {
  }

  /** Stripping blanks after `trim()` is stripping blanks: `trim()` only strips blanks. */
  lemma StripTrimmed(x: string)
    ensures Strip(Trim(x), IsBlank) == Strip(x, IsBlank)
  {
    var a, t := LeadingPad(x, IsTrimChar), Trim(x);
    var p, z := x[..a], x[a + |t|..];
    assert x == p + t + z && AllPad(p, IsBlank) && AllPad(z, IsBlank) by {
      StripSplit(x, IsTrimChar);
      TrimmedIsBlank(p);
      TrimmedIsBlank(z);
    }
    StripAbsorbs(x, p, t, z, IsBlank);
  }

  // ---------------------------------------------------------------------------
  // The code as written

  /** `preg_replace('/\s+/', ' ', trim($text))` */
  function NormalizeAsWritten(text: string): (r: string)
    ensures SingleSpaced(r)
    ensures r == [] <==> AllPad(text, IsTrimChar)
  {
    CollapseSpaces(Trim(text))
  }

  /**
   * What the code as written guarantees: single spacing, every non-blank
   * character kept, and a leading (trailing) space exactly when the trimmed
   * text begins (ends) with a form feed; otherwise the trimmed text's own
   * first (last) character.
   */
  lemma NormalizeAsWrittenShape(text: string)
    ensures SingleSpaced(NormalizeAsWritten(text))
    ensures Visible(NormalizeAsWritten(text)) == Visible(Trim(text))
    ensures var r, t := NormalizeAsWritten(text), Trim(text);
      r != [] ==> (r[0] == ' ' <==> t[0] == FormFeed) && (r[|r| - 1] == ' ' <==> t[|t| - 1] == FormFeed)
    ensures var r, t := NormalizeAsWritten(text), Trim(text);
      r != [] ==> (t[0] != FormFeed ==> r[0] == t[0]) && (t[|t| - 1] != FormFeed ==> r[|r| - 1] == t[|t| - 1])
  {
    CollapseKeepsVisible(Trim(text));
  }

  /** The discrepancy: a message "\x0Chi" is printed as " hi", with a leading space. */
  lemma FormFeedKeepsLeadingSpace()
    ensures NormalizeAsWritten([FormFeed, 'h', 'i']) == " hi"
  {
    var t := [FormFeed, 'h', 'i'];
    StripUnpadded(t, IsTrimChar);
    assert LeadingPad(t, IsCSpace) == 1;
    assert t[1..] == "hi";
    CollapseFixpoint("hi");
  }

  // ---------------------------------------------------------------------------
  // The evident intent

  /** `trim(preg_replace('/\s+/', ' ', $text))`: collapse first, then trim. */
  function NormalizeText(text: string): (r: string)
    ensures r == [] <==> AllPad(text, IsBlank)
  {
    TrimCollapse(text);
    Trim(CollapseSpaces(text))
  }

  /**
   * The printed text has no white space at either end, every inner run of white
   * space is exactly one space, and normalising twice changes nothing. Its
   * content is that of the code as written with the ends trimmed once more.
   */
  lemma NormalizeTextIsClean(text: string)
    ensures var r := NormalizeText(text);
      && SingleSpaced(r)
      && (r != [] ==> !IsCSpace(r[0]) && !IsCSpace(r[|r| - 1]))
      && NormalizeText(r) == r
      && r == Trim(NormalizeAsWritten(text))
  {
    var c := CollapseSpaces(text);
    var r := Trim(c);
    assert SingleSpaced(r) by {
      StripIsInfix(c, IsTrimChar);
      SingleSpacedInfix(c, LeadingPad(c, IsTrimChar), r);
    }
    assert r != [] ==> !IsTrimChar(r[0]) && !IsTrimChar(r[|r| - 1]);
    assert CollapseSpaces(r) == r by {
      CollapseFixpoint(r);
    }
    StripUnpadded(r, IsTrimChar);
    NormalizeTextContent(text);
  }

  /**
   * What is printed, in terms of the update's text: the text with every blank
   * stripped from both ends, and each run of white space made one space. The
   * code as written gives the same once its result is trimmed again.
   */
  lemma NormalizeTextContent(text: string)
    ensures NormalizeText(text) == CollapseSpaces(Strip(text, IsBlank))
    ensures NormalizeText(text) == Trim(NormalizeAsWritten(text))
  {
    TrimCollapse(text);
    TrimCollapse(Trim(text));
    StripTrimmed(text);
  }

  lemma SingleSpacedInfix(c: string, a: nat, r: string)
    requires SingleSpaced(c)
    requires a + |r| <= |c| && forall i :: 0 <= i < |r| ==> r[i] == c[a + i]
    ensures SingleSpaced(r)
  {
    forall i | 0 <= i < |r| - 1 && r[i] == ' '
      ensures r[i + 1] != ' '
    {
      assert c[a + i] == ' ';
    }
  }
}
