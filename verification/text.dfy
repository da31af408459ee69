/**
 * Characters, line anchors and line splitting, as Ruby's regular expressions
 * see them in a server response.
 */
module Text {

  const Newline: char := '\n'

  /** Ruby's `\s`: space, tab, line feed, vertical tab, form feed, carriage return. */
  predicate IsSpace(c: char) {
    c == ' ' || c == '\t' || c == '\n' || c as int == 0x0B || c as int == 0x0C || c == '\r'
  }

  /** Ruby's `\d`: an ASCII decimal digit. */
  predicate IsDigit(c: char) {
    '0' <= c <= '9'
  }

  /**
   * Ruby's `^`: the start of the text, or a position just after a line feed
   * that is not the end of the text.
   */
  predicate LineStart(s: string, p: nat) {
    p == 0 || (p < |s| && s[p - 1] == Newline)
  }

  /** Ruby's `$`: the end of the text, or a position just before a line feed. */
  predicate LineEnd(s: string, p: nat) {
    p == |s| || (p < |s| && s[p] == Newline)
  }

  /** The pattern `^w$` matches s at p: w occupies a whole line starting at p. */
  ghost predicate WholeLineAt(s: string, p: nat, w: string) {
    LineStart(s, p) && p + |w| <= |s| && s[p..p + |w|] == w && LineEnd(s, p + |w|)
  }

  /** The position of the first line feed of s, or |s| when there is none. */
  function FirstNewline(s: string): (k: nat)
    ensures k <= |s|
    ensures k < |s| ==> s[k] == Newline
    ensures forall i :: 0 <= i < k ==> s[i] != Newline
  {
    if s == [] then 0
    else if s[0] == Newline then 0
    else 1 + FirstNewline(s[1..])
  }

  /**
   * The lines of s: the pieces between line feeds, so that "a\nb\n" has the
   * lines "a", "b" and "".
   */
  function Lines(s: string): (ls: seq<string>)
    ensures |ls| >= 1
    ensures forall i :: 0 <= i < |ls| ==> Newline !in ls[i]
    decreases |s|
  {
    var k := FirstNewline(s);
    if k == |s| then [s] else [s[..k]] + Lines(s[k + 1..])
  }

  /** The text made of the given lines with a line feed between each two. */
  function Join(ls: seq<string>): string
    requires |ls| >= 1
  {
    if |ls| == 1 then ls[0] else ls[0] + [Newline] + Join(ls[1..])
  }

  /** Splitting a text into lines and joining them again gives the text back. */
  lemma {:induction false} JoinLines(s: string)
    ensures Join(Lines(s)) == s
    decreases |s|
  {
    var k := FirstNewline(s);
    if k < |s| {
      JoinLines(s[k + 1..]);
      assert s == s[..k] + [Newline] + s[k + 1..];
    }
  }

  /** A text without a line feed is a single line. */
  lemma LinesOfLine(a: string)
    requires Newline !in a
    ensures Lines(a) == [a]
  {}

  /** A line followed by a line feed contributes exactly that line. */
  lemma LinesCons(a: string, b: string)
    requires Newline !in a
    ensures Lines(a + [Newline] + b) == [a] + Lines(b)
  {
    var s := a + [Newline] + b;
    var k := FirstNewline(s);
    assert s[|a|] == Newline;
    assert k == |a|;
    assert s[..k] == a;
    assert s[k + 1..] == b;
  }

  /** Joining lines that hold no line feed and splitting again gives the lines back. */
  lemma {:induction false} LinesJoin(ls: seq<string>)
    requires |ls| >= 1
    requires forall i :: 0 <= i < |ls| ==> Newline !in ls[i]
    ensures Lines(Join(ls)) == ls
  {
    if |ls| == 1 {
      LinesOfLine(ls[0]);
    } else {
      LinesJoin(ls[1..]);
      LinesCons(ls[0], Join(ls[1..]));
    }
  }

  /** A match in the text after a line feed at k is a match in s, shifted by k + 1. */
  lemma WholeLineShiftUp(s: string, k: nat, p: nat, w: string)
    requires k < |s| && s[k] == Newline && w != []
    requires WholeLineAt(s[k + 1..], p, w)
    ensures WholeLineAt(s, p + k + 1, w)
  {}

  /** A match in s past a line feed at k is a match in the text after it. */
  lemma WholeLineShiftDown(s: string, k: nat, p: nat, w: string)
    requires k < p && k < |s| && s[k] == Newline
    requires WholeLineAt(s, p, w)
    ensures WholeLineAt(s[k + 1..], p - k - 1, w)
  {
    assert s[k + 1..][p - k - 1..p - k - 1 + |w|] == s[p..p + |w|];
  }

  /** Up to the first line feed, `^w$` can only match at 0, with w the whole first line. */
  lemma WholeLineFirst(s: string, p: nat, w: string)
    requires Newline !in w
    requires p <= FirstNewline(s) && WholeLineAt(s, p, w)
    ensures p == 0 && w == s[..FirstNewline(s)]
  {}

  /** The first line of s runs up to its first line feed; the others are the lines after it. */
  lemma LinesUnfold(s: string)
    ensures Lines(s)[0] == s[..FirstNewline(s)]
    ensures FirstNewline(s) < |s| ==> Lines(s) == [s[..FirstNewline(s)]] + Lines(s[FirstNewline(s) + 1..])
  {}

  /** Every line of s is matched by its own `^w$`. */
  lemma {:induction false} LineIsMatched(s: string, w: string)
    requires w != [] && w in Lines(s)
    ensures exists p: nat :: WholeLineAt(s, p, w)
    decreases |s|
  {
    var k := FirstNewline(s);
    LinesUnfold(s);
    if w == s[..k] {
      assert WholeLineAt(s, 0, w);
    } else {
      var t := s[k + 1..];
      LineIsMatched(t, w);
      var p': nat :| WholeLineAt(t, p', w);
      WholeLineShiftUp(s, k, p', w);
    }
  }

  /** A match up to the first line feed is the first line. */
  lemma FirstLineIsLine(s: string, p: nat, w: string)
    requires Newline !in w && p <= FirstNewline(s) && WholeLineAt(s, p, w)
    ensures w in Lines(s)
  {
    WholeLineFirst(s, p, w);
    LinesUnfold(s);
  }

  /** The lines after the first line feed are lines of s. */
  lemma LaterLineIsLine(s: string, w: string)
    requires FirstNewline(s) < |s| && w in Lines(s[FirstNewline(s) + 1..])
    ensures w in Lines(s)
  {
    LinesUnfold(s);
  }

  /** Whatever `^w$` matches is one of the lines of s. */
  lemma {:induction false} MatchIsLine(s: string, p: nat, w: string)
    requires w != [] && Newline !in w && WholeLineAt(s, p, w)
    ensures w in Lines(s)
    decreases |s|
  {
    var k := FirstNewline(s);
    if p <= k {
      FirstLineIsLine(s, p, w);
    } else {
      WholeLineShiftDown(s, k, p, w);
      MatchIsLine(s[k + 1..], p - k - 1, w);
      LaterLineIsLine(s, w);
    }
  }

  /**
   * The pattern `^w$` matches somewhere in s exactly when w is one of the
   * lines of s (for a non-empty w without line feeds).
   */
  lemma WholeLineIffLine(s: string, w: string)
    requires w != [] && Newline !in w
    ensures (exists p: nat :: WholeLineAt(s, p, w)) <==> w in Lines(s)
  {
    if w in Lines(s) {
      LineIsMatched(s, w);
    }
    if p: nat :| WholeLineAt(s, p, w) {
      MatchIsLine(s, p, w);
    }
  }
}
