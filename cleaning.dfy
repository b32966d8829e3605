/**
 * `get_cleaned_text` of the SQLite variant: `re.sub("(\n\n *)( *\n)*", "\n\n", text)`, written
 * as a left-to-right scanner. At every position where a match can start (a blank line,
 * "\n\n") the longest match is replaced by "\n\n" and scanning resumes after it; every other
 * character is copied.
 */
module Cleaning {

  predicate IsBlank(ch: char) {
    ch == ' ' || ch == '\n'
  }

  /** A match of the pattern can start here. */
  predicate StartsWithBreak(s: string) {
    |s| >= 2 && s[0] == '\n' && s[1] == '\n'
  }

  /** `s` contains "\n\n" somewhere. */
  predicate HasBreak(s: string) {
    exists i :: 0 <= i < |s| - 1 && s[i] == '\n' && s[i + 1] == '\n'
  }

  /**
   * The language of the pattern: "\n\n" followed either by spaces only, or by spaces and
   * newlines ending in a newline.
   */
  predicate InPattern(w: string) {
    && StartsWithBreak(w)
    && ((forall i :: 2 <= i < |w| ==> w[i] == ' ')
        || ((forall i :: 2 <= i < |w| ==> IsBlank(w[i])) && w[|w| - 1] == '\n'))
  }

  /** Length of the longest prefix made of spaces and newlines. */
  function BlankRun(s: string): (n: nat)
    ensures n <= |s|
    ensures forall i :: 0 <= i < n ==> IsBlank(s[i])
    ensures n < |s| ==> !IsBlank(s[n])
  {
    if s == [] || !IsBlank(s[0]) then 0 else 1 + BlankRun(s[1..])
  }

  /** Length of the prefix ending with the last newline, 0 when there is none. */
  function ThroughLastNewline(s: string): (n: nat)
    ensures n <= |s|
    ensures n > 0 ==> s[n - 1] == '\n'
    ensures forall i :: n <= i < |s| ==> s[i] != '\n'
  {
    if s == [] then 0
    else if s[|s| - 1] == '\n' then |s|
    else ThroughLastNewline(s[..|s| - 1])
  }

  /**
   * Length of the match at the start of `s`: the blank line, then the following run of spaces
   * and newlines up to its last newline, or the whole run when it holds no newline.
   */
  function MatchLength(s: string): (m: nat)
    requires StartsWithBreak(s)
    ensures 2 <= m <= |s|
    ensures m < |s| ==> s[m] != '\n'
  {
    var run := BlankRun(s[2..]);
    var k := ThroughLastNewline(s[2..2 + run]);
    assert forall i :: 2 <= i < |s| ==> s[2..][i - 2] == s[i];
    assert forall i :: 2 <= i < 2 + run ==> s[2..2 + run][i - 2] == s[i];
    2 + (if k > 0 then k else run)
  }

  /** `get_cleaned_text(text)` */
  function Clean(s: string): string
    decreases |s|
  {
    if StartsWithBreak(s) then "\n\n" + Clean(s[MatchLength(s)..])
    else if s == [] then []
    else [s[0]] + Clean(s[1..])
  }

  /**
   * The scanner's match is the longest prefix of `s` in the pattern's language, which is what
   * the greedy quantifiers of the pattern select.
   */
  lemma MatchIsLongest(s: string)
    requires StartsWithBreak(s)
    ensures InPattern(s[..MatchLength(s)])
    ensures forall k :: MatchLength(s) < k <= |s| ==> !InPattern(s[..k])
  {
    var m := MatchLength(s);
    var run := BlankRun(s[2..]);
    var k0 := ThroughLastNewline(s[2..2 + run]);
    assert forall i :: 2 <= i < 2 + run ==> s[2..][i - 2] == s[i] && IsBlank(s[i]);
    assert forall i :: 2 <= i < 2 + run ==> s[2..2 + run][i - 2] == s[i];
    if k0 == 0 {
      assert forall i :: 2 <= i < m ==> s[..m][i] == ' ' by {
        forall i | 2 <= i < m ensures s[..m][i] == ' ' {
          assert s[2..2 + run][i - 2] != '\n';
        }
      }
    } else {
      assert s[..m][m - 1] == '\n';
    }
    forall k | m < k <= |s| ensures !InPattern(s[..k]) {
      var w := s[..k];
      if k > 2 + run {
        assert !IsBlank(w[2 + run]);
      } else if k0 > 0 {
        assert w[m - 1] == '\n';
        assert s[2..2 + run][k - 3] != '\n';
        assert w[k - 1] != '\n';
      } else {
        assert false;
      }
    }
  }

  /** The first character survives cleaning. */
  lemma {:induction false} CleanHead(s: string)
    requires s != []
    ensures Clean(s) != [] && Clean(s)[0] == s[0]
  {
  }

  /** Cleaning never lengthens the text. */
  lemma {:induction false} CleanShortens(s: string)
    ensures |Clean(s)| <= |s|
    decreases |s|
  {
    if StartsWithBreak(s) {
      CleanShortens(s[MatchLength(s)..]);
    } else if s != [] {
      CleanShortens(s[1..]);
    }
  }

  /** Only the empty text cleans to the empty text. */
  lemma CleanEmptyIff(s: string)
    ensures Clean(s) == [] <==> s == []
  {
    if s != [] {
      CleanHead(s);
    }
  }

  /** A text without a blank line is returned unchanged. */
  lemma {:induction false} CleanWithoutBreak(s: string)
    requires !HasBreak(s)
    ensures Clean(s) == s
    decreases |s|
  {
    if s != [] {
      assert forall i :: 0 <= i < |s| - 1 ==> s[1..][i] == s[i + 1];
      CleanWithoutBreak(s[1..]);
    }
  }

  /** The cleaned text starts with a blank line exactly when the original does. */
  lemma CleanKeepsLeadingBreak(s: string)
    ensures StartsWithBreak(Clean(s)) <==> StartsWithBreak(s)
  {
    if !StartsWithBreak(s) && |s| >= 2 {
      CleanHead(s[1..]);
    }
  }

  /** No three consecutive newlines. */
  predicate NoTripleNewline(s: string) {
    forall i :: 0 <= i < |s| - 2 ==> !(s[i] == '\n' && s[i + 1] == '\n' && s[i + 2] == '\n')
  }

  /** Every run of newlines in the cleaned text is at most two long. */
  lemma {:induction false} CleanNoTripleNewline(s: string)
    ensures NoTripleNewline(Clean(s))
    decreases |s|
  {
    if StartsWithBreak(s) {
      var rest := s[MatchLength(s)..];
      CleanNoTripleNewline(rest);
      var c := Clean(rest);
      if rest != [] {
        CleanHead(rest);
      } else {
        assert c == [];
      }
      var r := "\n\n" + c;
      forall i | 0 <= i < |r| - 2 ensures !(r[i] == '\n' && r[i + 1] == '\n' && r[i + 2] == '\n') {
        if i >= 2 {
          assert r[i] == c[i - 2] && r[i + 1] == c[i - 1] && r[i + 2] == c[i];
        } else {
          assert r[2] == c[0];
        }
      }
    } else if s != [] {
      var c := Clean(s[1..]);
      CleanNoTripleNewline(s[1..]);
      if |s| >= 2 {
        CleanHead(s[1..]);
      }
      var r := [s[0]] + c;
      forall i | 0 <= i < |r| - 2 ensures !(r[i] == '\n' && r[i + 1] == '\n' && r[i + 2] == '\n') {
        if i >= 1 {
          assert r[i] == c[i - 1] && r[i + 1] == c[i] && r[i + 2] == c[i + 1];
        } else {
          assert r[1] == c[0] == s[1];
        }
      }
    }
  }

  /** Cleaning is not idempotent: a second pass can still shorten the text. */
  lemma CleanNotIdempotent()
    ensures Clean("\n\n\n  x") == "\n\n  x"
    ensures Clean("\n\n  x") == "\n\nx"
  {
    CleanThreeBreaks();
    CleanTwoBreaks();
  }

  lemma CleanThreeBreaks()
    ensures Clean("\n\n\n  x") == "\n\n  x"
  {
    FirstMatch();
    CleanSpacedX();
    assert "\n\n\n  x"[3..] == "  x";
  }

  lemma CleanTwoBreaks()
    ensures Clean("\n\n  x") == "\n\nx"
  {
    SecondMatch();
    CleanSpacedX();
    assert "\n\n  x"[4..] == "x";
  }

  lemma BlankRuns()
    ensures BlankRun("x") == 0 && BlankRun(" x") == 1 && BlankRun("  x") == 2 && BlankRun("\n  x") == 3
  {
    assert "\n  x"[1..] == "  x" && "  x"[1..] == " x" && " x"[1..] == "x";
  }

  /** In `"\n\n\n  x"` the match is the three newlines: the spaces after the last one stay. */
  lemma FirstMatch()
    ensures MatchLength("\n\n\n  x") == 3
  {
    BlankRuns();
    assert "\n\n\n  x"[2..] == "\n  x" && "\n\n\n  x"[2..5] == "\n  ";
    assert "\n  "[..2] == "\n " && "\n "[..1] == "\n";
    assert ThroughLastNewline("\n") == 1 && ThroughLastNewline("\n ") == 1 && ThroughLastNewline("\n  ") == 1;
  }

  /** In `"\n\n  x"` no newline follows the spaces, so the match takes them. */
  lemma SecondMatch()
    ensures MatchLength("\n\n  x") == 4
  {
    BlankRuns();
    assert "\n\n  x"[2..] == "  x" && "\n\n  x"[2..4] == "  ";
    assert "  "[..1] == " " && " "[..0] == "";
    assert ThroughLastNewline("") == 0 && ThroughLastNewline(" ") == 0 && ThroughLastNewline("  ") == 0;
  }

  lemma CleanSpacedX()
    ensures Clean("x") == "x" && Clean(" x") == " x" && Clean("  x") == "  x"
  {
    assert "  x"[1..] == " x" && " x"[1..] == "x" && "x"[1..] == "";
    assert Clean("x") == "x";
    assert Clean(" x") == " x";
  }
}
