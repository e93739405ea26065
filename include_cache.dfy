/**
 * The expansion cache of archi/src/shader/preprocessor.rs across calls of
 * `expand`. The cache is keyed by source name alone and is consulted before
 * any of a header's own include lines are looked at, so a header expanded by
 * an earlier call comes back with the text of its includes inlined, even
 * when the current call has already inlined those includes itself.
 */
module IncludeCache {
  import opened Wrappers
  import opened RustStr
  import opened ShaderPreprocessor

  /** The line `#pragma include "name"`. */
  function Include(name: string): (line: string)
    ensures |line| > |Pragma|
  {
    Pragma + "\"" + name + "\""
  }

  lemma IncludeLine(name: string)
    requires NoWhitespace(name)
    ensures IsPragma(Include(name))
    ensures ParseIncludeName(Include(name)[|Pragma|..]) == Ok(name)
    ensures forall i | 0 <= i < |Include(name)| :: Include(name)[i] != '\n'
    ensures Include(name)[|Include(name)| - 1] != '\r'
  {
    var line := Include(name);
    assert line[..|Pragma|] == Pragma;
    assert line[|Pragma|..] == "" + "\"" + name + "\"" + "";
    ParseIncludeNameComplete("", name, "");
    assert forall i | |Pragma| + 1 <= i < |line| - 1 :: line[i] == name[i - |Pragma| - 1];
  }

  /** A non-empty text without '\n' is one line. */
  lemma SingleLine(s: string)
    requires |s| > 0 && forall i | 0 <= i < |s| :: s[i] != '\n'
    ensures Lines(s) == [s]
  {
    assert LineEnd(s) == |s|;
  }

  /** Two lines joined by '\n', the first not ending in '\r', split back into the two. */
  lemma TwoLines(s: string, t: string)
    requires |s| > 0 && s[|s| - 1] != '\r' && forall i | 0 <= i < |s| :: s[i] != '\n'
    requires |t| > 0 && forall i | 0 <= i < |t| :: t[i] != '\n'
    ensures Lines(s + "\n" + t) == [s, t]
  {
    var c := s + "\n" + t;
    assert c[|s|] == '\n';
    assert forall j | 0 <= j < |s| :: c[j] == s[j];
    assert LineEnd(c) == |s|;
    assert c[..|s|] == s && c[|s| + 1..] == t;
    SingleLine(t);
  }

  /** The line loop over nothing: the buffer, with nothing else changed. */
  lemma NoLines(headers: map<string, string>, expanded: map<string, string>, included: set<string>, buf: string)
    ensures ExpandLines(headers, expanded, included, [], buf) == Outcome(Ok(buf), expanded, included, [])
  {
  }

  /** The line loop over one include line of an already included name: nothing is emitted. */
  lemma SkippedLine(headers: map<string, string>, expanded: map<string, string>,
                    included: set<string>, m: string, rest: seq<string>, buf: string)
    requires NoWhitespace(m) && m in included
    ensures ExpandLines(headers, expanded, included, [Include(m)] + rest, buf) ==
            ExpandLines(headers, expanded, included, rest, buf)
  {
    IncludeLine(m);
    var lines := [Include(m)] + rest;
    assert lines[0] == Include(m) && lines[0..] == lines && lines[1..] == rest;
    IncludeLineStep(headers, expanded, included, lines, 0, buf);
  }

  /** The line loop over one include line of a registered name not yet included: its expansion is emitted. */
  lemma InlinedLine(headers: map<string, string>, expanded: map<string, string>,
                    included: set<string>, m: string, rest: seq<string>, buf: string)
    requires NoWhitespace(m) && m !in included && m in headers
    ensures var h := ExpandSource(headers, expanded, included + {m}, Source(m, headers[m]));
      h.result.Ok? ==>
        SameEffect(ExpandLines(headers, expanded, included, [Include(m)] + rest, buf),
                   ExpandLines(headers, h.expanded, h.included, rest, buf + LineEnded(h.result.value)))
  {
    IncludeLine(m);
    var lines := [Include(m)] + rest;
    assert lines[0] == Include(m) && lines[0..] == lines && lines[1..] == rest;
    IncludeLineStep(headers, expanded, included, lines, 0, buf);
    HeaderStep(headers, expanded, included, m, rest, buf);
  }

  /** A source with an include line and no cache entry: the loop's result, cached under its name on success. */
  lemma SourceWithInclude(headers: map<string, string>, expanded: map<string, string>,
                          included: set<string>, source: Source, lines: seq<string>)
    requires source.name !in expanded && lines == Lines(source.body) && AnyPragma(lines)
    ensures var o := ExpandLines(headers, expanded, included, lines, "");
      var r := ExpandSource(headers, expanded, included, source);
      o.result.Ok? ==> r.result == o.result && r.expanded == o.expanded[source.name := o.result.value] && r.included == o.included
  {
  }

  /** A source whose body is the single line `#pragma include "m"`, for a name already included: empty text. */
  lemma IncludeOnlySkipped(headers: map<string, string>, expanded: map<string, string>,
                           included: set<string>, n: string, m: string)
    requires n !in expanded && NoWhitespace(m) && m in included
    ensures var o := ExpandSource(headers, expanded, included, Source(n, Include(m)));
      o.result == Ok("") && o.expanded == expanded[n := ""] && o.included == included
  {
    IncludeLine(m);
    SingleLine(Include(m));
    var lines := [Include(m)];
    assert AnyPragma(lines) by {
      assert IsPragma(lines[0]);
    }
    SkippedLine(headers, expanded, included, m, [], "");
    assert [Include(m)] + [] == lines;
    NoLines(headers, expanded, included, "");
    SourceWithInclude(headers, expanded, included, Source(n, Include(m)), lines);
  }

  /**
   * A source whose body is the single line `#pragma include "m"`, for a
   * registered name not yet included: the header's expansion, ending in '\n'.
   */
  lemma IncludeOnlyInlined(headers: map<string, string>, expanded: map<string, string>,
                           included: set<string>, n: string, m: string)
    requires n !in expanded && NoWhitespace(m) && m !in included && m in headers
    ensures var h := ExpandSource(headers, expanded, included + {m}, Source(m, headers[m]));
      var o := ExpandSource(headers, expanded, included, Source(n, Include(m)));
      h.result.Ok? ==>
        o.result == Ok(LineEnded(h.result.value)) &&
        o.expanded == h.expanded[n := LineEnded(h.result.value)] && o.included == h.included
  {
    IncludeLine(m);
    SingleLine(Include(m));
    var lines := [Include(m)];
    assert AnyPragma(lines) by {
      assert IsPragma(lines[0]);
    }
    var h := ExpandSource(headers, expanded, included + {m}, Source(m, headers[m]));
    if h.result.Ok? {
      InlinedLine(headers, expanded, included, m, [], "");
      assert [Include(m)] + [] == lines;
      NoLines(headers, h.expanded, h.included, "" + LineEnded(h.result.value));
      assert "" + LineEnded(h.result.value) == LineEnded(h.result.value);
      SourceWithInclude(headers, expanded, included, Source(n, Include(m)), lines);
    }
  }

  /** The first call: x includes a, which includes b; a and x are cached with t's text. */
  lemma FirstCall(a: string, b: string, t: string, x: string)
    requires NoWhitespace(a) && NoWhitespace(b) && !AnyPragma(Lines(t))
    requires a != b && x != a && x != b
    ensures var headers := map[a := Include(b), b := t];
      var first := ExpandSource(headers, map[], {}, Source(x, Include(a)));
      first.result == Ok(LineEnded(t)) &&
      first.expanded == map[b := t][a := LineEnded(t)][x := LineEnded(t)]
  {
    var headers := map[a := Include(b), b := t];
    var lt := LineEnded(t);
    NoIncludeUnchanged(headers, map[], {a, b}, Source(b, t));
    IncludeOnlyInlined(headers, map[], {a}, a, b);
    assert {a} + {b} == {a, b};
    IncludeOnlyInlined(headers, map[], {}, x, a);
    assert {} + {a} == {a};
    assert LineEnded(lt) == lt;
  }

  /** The body of y: `#pragma include "b"`, then `#pragma include "a"`. */
  lemma SecondBody(a: string, b: string)
    requires NoWhitespace(a) && NoWhitespace(b)
    ensures var lines := Lines(Include(b) + "\n" + Include(a));
      lines == [Include(b), Include(a)] && lines[1..] == [Include(a)] && AnyPragma(lines) &&
      IsPragma(Include(a)) && ParseIncludeName(Include(a)[|Pragma|..]) == Ok(a) &&
      IsPragma(Include(b)) && ParseIncludeName(Include(b)[|Pragma|..]) == Ok(b)
  {
    IncludeLine(a);
    IncludeLine(b);
    TwoLines(Include(b), Include(a));
    assert IsPragma([Include(b), Include(a)][0]);
  }

  /** After b is inlined, the line including a adds only a line end: a's own include of b is skipped. */
  lemma SecondLineSkipsB(a: string, b: string, t: string, buf: string)
    requires NoWhitespace(a) && NoWhitespace(b) && a != b
    ensures var headers := map[a := Include(b), b := t];
      ExpandLines(headers, map[b := t], {b}, [Include(a)], buf).result == Ok(buf + "\n")
  {
    var headers := map[a := Include(b), b := t];
    var e1 := map[b := t];
    IncludeOnlySkipped(headers, e1, {b} + {a}, a, b);
    InlinedLine(headers, e1, {b}, a, [], buf);
    assert [Include(a)] + [] == [Include(a)];
    NoLines(headers, e1[a := ""], {b} + {a}, buf + LineEnded(""));
    assert LineEnded("") == "\n";
  }

  /** With an empty cache, y gets t's text once: a's include of b is skipped. */
  lemma FreshSecond(a: string, b: string, t: string, y: string)
    requires NoWhitespace(a) && NoWhitespace(b) && !AnyPragma(Lines(t))
    requires a != b && y != a && y != b
    ensures var headers := map[a := Include(b), b := t];
      ExpandSource(headers, map[], {}, Source(y, Include(b) + "\n" + Include(a))).result == Ok(LineEnded(t) + "\n")
  {
    var headers := map[a := Include(b), b := t];
    var lines := [Include(b)] + [Include(a)];
    var lt := LineEnded(t);
    SecondBody(a, b);
    // b is inlined as it stands
    var e1 := map[b := t];
    NoIncludeUnchanged(headers, map[], {} + {b}, Source(b, t));
    InlinedLine(headers, map[], {}, b, [Include(a)], "");
    assert {} + {b} == {b} && "" + lt == lt;
    assert SameEffect(ExpandLines(headers, map[], {}, lines, ""),
                      ExpandLines(headers, e1, {b}, [Include(a)], lt));
    SecondLineSkipsB(a, b, t, lt);
    assert ExpandLines(headers, map[], {}, lines, "").result == Ok(lt + "\n");
    SourceWithInclude(headers, map[], {}, Source(y, Include(b) + "\n" + Include(a)), lines);
  }

  /** A source already in the cache: the cached text, with nothing else changed. */
  lemma CachedSource(headers: map<string, string>, expanded: map<string, string>,
                     included: set<string>, source: Source)
    requires source.name in expanded
    ensures ExpandSource(headers, expanded, included, source) ==
            Outcome(Ok(expanded[source.name]), expanded, included, [])
  {
  }

  /** With the cache the first call left, y gets t's text twice: both headers come from the cache. */
  lemma CachedSecond(a: string, b: string, t: string, y: string, cache: map<string, string>)
    requires NoWhitespace(a) && NoWhitespace(b)
    requires a != b && y != a && y != b
    requires b in cache && cache[b] == t && a in cache && cache[a] == LineEnded(t) && y !in cache
    ensures var headers := map[a := Include(b), b := t];
      ExpandSource(headers, cache, {}, Source(y, Include(b) + "\n" + Include(a))).result == Ok(LineEnded(t) + LineEnded(t))
  {
    var headers := map[a := Include(b), b := t];
    var lines := [Include(b)] + [Include(a)];
    var lt := LineEnded(t);
    SecondBody(a, b);
    // b comes from the cache
    CachedSource(headers, cache, {} + {b}, Source(b, t));
    InlinedLine(headers, cache, {}, b, [Include(a)], "");
    assert {} + {b} == {b} && "" + lt == lt;
    // so does a, with b's text already inside it
    CachedSource(headers, cache, {b} + {a}, Source(a, Include(b)));
    InlinedLine(headers, cache, {b}, a, [], lt);
    assert [Include(a)] + [] == [Include(a)];
    assert LineEnded(lt) == lt;
    NoLines(headers, cache, {b} + {a}, lt + lt);
    assert ExpandLines(headers, cache, {}, lines, "").result == Ok(lt + lt);
    SourceWithInclude(headers, cache, {}, Source(y, Include(b) + "\n" + Include(a)), lines);
  }

  /**
   * Headers a = `#pragma include "b"` and b = t (t without include lines).
   * Expanding x = `#pragma include "a"` caches a with the text of b inlined.
   * Expanding y = `#pragma include "b"` then `#pragma include "a"` afterwards
   * gives t's text twice; with an empty cache it gives it once, because a's
   * include of b is skipped as already included.
   */
  lemma CachedHeaderInlinedTwice(a: string, b: string, t: string, x: string, y: string)
    requires NoWhitespace(a) && NoWhitespace(b) && !AnyPragma(Lines(t))
    requires a != b && x != a && x != b && y != a && y != b && y != x
    ensures var headers := map[a := Include(b), b := t];
      var first := ExpandSource(headers, map[], {}, Source(x, Include(a)));
      var second := Source(y, Include(b) + "\n" + Include(a));
      first.result == Ok(LineEnded(t)) &&
      ExpandSource(headers, map[], {}, second).result == Ok(LineEnded(t) + "\n") &&
      ExpandSource(headers, first.expanded, {}, second).result == Ok(LineEnded(t) + LineEnded(t))
  {
    FirstCall(a, b, t, x);
    FreshSecond(a, b, t, y);
    var headers := map[a := Include(b), b := t];
    CachedSecond(a, b, t, y, ExpandSource(headers, map[], {}, Source(x, Include(a))).expanded);
  }

  /**
   * An expansion that starts from an empty cache inlines each header's text
   * at most once: the headers it inlines are distinct, and every cache entry
   * it leaves is one of them or the source itself, so none of them was
   * served from an earlier expansion.
   */
  lemma FreshExpansionInlinesOnce(headers: map<string, string>, source: Source)
    ensures var o := ExpandSource(headers, map[], {}, source);
      NoDuplicates(o.inlined) && o.included == Names(o.inlined) &&
      o.expanded.Keys <= Names(o.inlined) + {source.name}
  {
    NoHitSource(headers, map[], {}, source);
    var o := ExpandSource(headers, map[], {}, source);
    assert {} + Names(o.inlined) == Names(o.inlined);
  }

  /**
   * The cache as evidently intended: it never changes what an expansion
   * yields. Each `expand` works with a scratch cache of its own; only whole
   * top-level results are kept, keyed by the full source, and registering a
   * header drops them, since it can change any result.
   */
  class CachedPreprocessor {
    /** Registered headers, by name. */
    var headers: map<string, string>
    /** Kept top-level results. */
    var results: map<Source, string>

    /** Every kept result is what a fresh expansion of its source yields. */
    predicate Valid()
      reads this
    {
      forall s | s in results :: ExpandSource(headers, map[], {}, s).result == Ok(results[s])
    }

    constructor()
      ensures Valid() && headers == map[] && results == map[]
    {
      headers := map[];
      results := map[];
    }

    /** Registers a header and drops every kept result. */
    method AddHeader(source: Source)
      modifies this
      ensures Valid()
      ensures headers == old(headers)[source.name := source.body] && results == map[]
    {
      headers := headers[source.name := source.body];
      results := map[];
    }

    /**
     * A top-level expansion: the kept result when there is one, otherwise a
     * fresh expansion, kept when it succeeds. Either way it is what a
     * preprocessor with the same headers and an empty cache yields.
     */
    method Expand(source: Source) returns (result: Result<string, Error>)
      requires Valid()
      modifies this
      ensures Valid() && headers == old(headers)
      ensures result == ExpandSource(headers, map[], {}, source).result
      ensures result.Ok? ==> source in results && results[source] == result.value
      ensures var o := ExpandSource(headers, map[], {}, source);
        NoDuplicates(o.inlined) && o.expanded.Keys <= Names(o.inlined) + {source.name}
    {
      FreshExpansionInlinesOnce(headers, source);
      if source in results {
        return Ok(results[source]);
      }
      var o := ExpandSource(headers, map[], {}, source);
      result := o.result;
      if result.Ok? {
        results := results[source := result.value];
      }
    }
  }
}
