/**
 * The parts of Rust's `str` the shader code relies on: `lines`,
 * `starts_with`, `char::is_whitespace` and `split_whitespace`, on strings
 * as sequences of Unicode scalar values.
 */
module RustStr {

  /** `char::is_whitespace`: the Unicode White_Space property. */
  predicate IsWhitespace(c: char)
  {
    c == ' ' || ('\t' <= c <= '\r') || c == '\U{85}' || c == '\U{A0}' || c == '\U{1680}' ||
    ('\U{2000}' <= c <= '\U{200A}') || c == '\U{2028}' || c == '\U{2029}' || c == '\U{202F}' ||
    c == '\U{205F}' || c == '\U{3000}'
  }

  predicate AllWhitespace(s: string)
  {
    forall i | 0 <= i < |s| :: IsWhitespace(s[i])
  }

  predicate NoWhitespace(s: string)
  {
    forall i | 0 <= i < |s| :: !IsWhitespace(s[i])
  }

  predicate StartsWith(s: string, prefix: string)
  {
    |prefix| <= |s| && s[..|prefix|] == prefix
  }

  // ---------------------------------------------------------------------
  // split_whitespace

  /** Length of the longest whitespace-free prefix. */
  function TokenEnd(s: string): (t: nat)
    ensures t <= |s|
    ensures NoWhitespace(s[..t])
    ensures t < |s| ==> IsWhitespace(s[t])
  {
    if |s| == 0 || IsWhitespace(s[0]) then 0
    else
      var t := TokenEnd(s[1..]);
      assert s[..t + 1] == [s[0]] + s[1..][..t];
      t + 1
  }

  /** `split_whitespace`: the maximal non-empty whitespace-free runs, in order. */
  function Words(s: string): (w: seq<string>)
    decreases |s|
  {
    if |s| == 0 then []
    else if IsWhitespace(s[0]) then Words(s[1..])
    else
      var t := TokenEnd(s);
      [s[..t]] + Words(s[t..])
  }

  lemma {:induction false} WordsOfWhitespace(s: string)
    requires AllWhitespace(s)
    ensures Words(s) == []
  {
    if |s| > 0 {
      WordsOfWhitespace(s[1..]);
    }
  }

  lemma {:induction false} WordsSkipWhitespace(a: string, r: string)
    requires AllWhitespace(a)
    ensures Words(a + r) == Words(r)
  {
    if |a| > 0 {
      assert (a + r)[1..] == a[1..] + r;
      WordsSkipWhitespace(a[1..], r);
    } else {
      assert a + r == r;
    }
  }

  lemma {:induction false} TokenEndOf(tok: string, b: string)
    requires NoWhitespace(tok)
    requires |b| == 0 || IsWhitespace(b[0])
    ensures TokenEnd(tok + b) == |tok|
  {
    if |tok| > 0 {
      assert (tok + b)[1..] == tok[1..] + b;
      TokenEndOf(tok[1..], b);
    }
  }

  /** A single token between whitespace is the only word. */
  lemma SingleWord(a: string, tok: string, b: string)
    requires AllWhitespace(a) && AllWhitespace(b)
    requires |tok| > 0 && NoWhitespace(tok)
    ensures Words(a + tok + b) == [tok]
  {
    WordsSkipWhitespace(a, tok + b);
    assert a + tok + b == a + (tok + b);
    TokenEndOf(tok, b);
    assert (tok + b)[..|tok|] == tok;
    assert (tok + b)[|tok|..] == b;
    WordsOfWhitespace(b);
  }

  /** A string with no word is all whitespace. */
  lemma {:induction false} NoWordsAllWhitespace(s: string)
    requires Words(s) == []
    ensures AllWhitespace(s)
  {
    if |s| > 0 {
      NoWordsAllWhitespace(s[1..]);
    }
  }

  /** A string with exactly one word is that word between two runs of whitespace. */
  lemma {:induction false} OneWord(s: string) returns (a: string, b: string)
    requires |Words(s)| == 1
    ensures AllWhitespace(a) && AllWhitespace(b)
    ensures |Words(s)[0]| > 0 && NoWhitespace(Words(s)[0])
    ensures s == a + Words(s)[0] + b
  {
    if IsWhitespace(s[0]) {
      var a', b' := OneWord(s[1..]);
      a, b := [s[0]] + a', b';
    } else {
      var t := TokenEnd(s);
      NoWordsAllWhitespace(s[t..]);
      a, b := [], s[t..];
    }
  }

  // ---------------------------------------------------------------------
  // lines

  /** Index of the first '\n', or the length when there is none. */
  function LineEnd(s: string): (i: nat)
    ensures i <= |s|
    ensures i < |s| ==> s[i] == '\n'
    ensures forall j | 0 <= j < i :: s[j] != '\n'
  {
    if |s| == 0 || s[0] == '\n' then 0 else LineEnd(s[1..]) + 1
  }

  /** Drops the '\r' of a "\r\n" line ending. */
  function StripCR(line: string): string
  {
    if |line| > 0 && line[|line| - 1] == '\r' then line[..|line| - 1] else line
  }

  /**
   * `str::lines`: split at '\n', drop a '\r' right before the '\n', and no
   * empty last line after a final '\n'.
   */
  function Lines(s: string): (lines: seq<string>)
    decreases |s|
  {
    if |s| == 0 then []
    else
      var i := LineEnd(s);
      if i == |s| then [s] else [StripCR(s[..i])] + Lines(s[i + 1..])
  }

  /** Each line followed by '\n'. */
  function Join(lines: seq<string>): string
  {
    if |lines| == 0 then "" else lines[0] + "\n" + Join(lines[1..])
  }

  predicate NoCR(s: string)
  {
    forall i | 0 <= i < |s| :: s[i] != '\r'
  }

  lemma SplitAt(s: string, i: nat)
    requires i < |s|
    ensures s == s[..i] + [s[i]] + s[i + 1..]
  {
  }

  /** The text with a '\n' added unless it is empty or already ends in one. */
  function Terminated(s: string): string
  {
    if |s| == 0 || s[|s| - 1] == '\n' then s else s + "\n"
  }

  lemma TerminatedAfterLine(line: string, r: string)
    ensures line + "\n" + Terminated(r) == Terminated(line + "\n" + r)
  {
    if |r| > 0 {
      assert (line + "\n" + r)[|line + "\n" + r| - 1] == r[|r| - 1];
    } else {
      assert line + "\n" + r == line + "\n";
    }
  }

  /**
   * Splitting into lines and ending every line with '\n' gives the text
   * back, with a '\n' added when its last line had none.
   */
  lemma {:induction false} LinesJoin(s: string)
    requires NoCR(s)
    ensures Join(Lines(s)) == Terminated(s)
  {
    if |s| > 0 {
      var i := LineEnd(s);
      if i < |s| {
        var line, r := s[..i], s[i + 1..];
        assert StripCR(line) == line by {
          assert |line| == 0 || line[|line| - 1] == s[i - 1];
        }
        assert NoCR(r) by {
          assert forall k | 0 <= k < |r| :: r[k] == s[i + 1 + k];
        }
        LinesJoin(r);
        SplitAt(s, i);
        TerminatedAfterLine(line, r);
      }
    }
  }

  /** No line contains a '\n'. */
  lemma {:induction false} LinesHaveNoNewline(s: string, k: nat, j: nat)
    requires k < |Lines(s)| && j < |Lines(s)[k]|
    ensures Lines(s)[k][j] != '\n'
  {
    var i := LineEnd(s);
    if i < |s| && k > 0 {
      LinesHaveNoNewline(s[i + 1..], k - 1, j);
    }
  }
}
