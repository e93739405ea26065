/**
 * The shader include preprocessor (archi/src/shader/preprocessor.rs):
 * `#pragma include "name"` lines are replaced by the expansion of the
 * registered header of that name, each header at most once per top-level
 * expansion, with every expansion memoised by source name.
 */
module ShaderPreprocessor {
  import opened Wrappers
  import opened RustStr

  datatype Error = Format | NotFound

  /** A shader source: its name and its text. */
  datatype Source = Source(name: string, body: string)

  const Pragma: string := "#pragma include "

  predicate IsPragma(line: string)
  {
    StartsWith(line, Pragma)
  }

  predicate AnyPragma(lines: seq<string>)
  {
    exists i | 0 <= i < |lines| :: IsPragma(lines[i])
  }

  /**
   * `parse_include_name`: exactly one whitespace-separated word, opening
   * and closing with a double quote; the text between the quotes.
   */
  function ParseIncludeName(directive: string): Result<string, Error>
  {
    var words := Words(directive);
    if |words| == 1 && |words[0]| >= 2 && words[0][0] == '"' && words[0][|words[0]| - 1] == '"'
    then Ok(words[0][1..|words[0]| - 1])
    else Err(Format)
  }

  /** Every quoted, whitespace-free name between runs of whitespace parses back to itself. */
  lemma ParseIncludeNameComplete(a: string, name: string, b: string)
    requires AllWhitespace(a) && AllWhitespace(b) && NoWhitespace(name)
    ensures ParseIncludeName(a + "\"" + name + "\"" + b) == Ok(name)
  {
    var tok := "\"" + name + "\"";
    assert NoWhitespace(tok) by {
      assert forall i | 0 < i < |tok| - 1 :: tok[i] == name[i - 1];
    }
    SingleWord(a, tok, b);
    assert a + "\"" + name + "\"" + b == a + tok + b;
    assert tok[1..|tok| - 1] == name;
  }

  /**
   * A name is accepted only from one quoted, whitespace-free word with
   * nothing but whitespace around it.
   */
  lemma ParseIncludeNameSound(directive: string) returns (a: string, b: string)
    requires ParseIncludeName(directive).Ok?
    ensures AllWhitespace(a) && AllWhitespace(b)
    ensures NoWhitespace(ParseIncludeName(directive).value)
    ensures directive == a + "\"" + ParseIncludeName(directive).value + "\"" + b
  {
    var w := Words(directive)[0];
    a, b := OneWord(directive);
    var name := w[1..|w| - 1];
    assert w == "\"" + name + "\"";
    assert NoWhitespace(name) by {
      assert forall i | 0 <= i < |name| :: name[i] == w[i + 1];
    }
  }

  /** An inlined header, with a '\n' pushed after it unless its last character is one. */
  function LineEnded(text: string): (t: string)
    ensures |t| > 0 && t[|t| - 1] == '\n'
    ensures t == text || t == text + "\n"
  {
    if |text| > 0 && text[|text| - 1] == '\n' then text else text + "\n"
  }

  // ---------------------------------------------------------------------
  // Expansion, as a function of the state it reads and writes

  /**
   * The result of an expansion with the state it leaves: the memo cache,
   * the set of header names already included in this top-level expansion,
   * and, in order, the names this expansion added to that set.
   */
  datatype Outcome = Outcome(result: Result<string, Error>, expanded: map<string, string>,
                             included: set<string>, inlined: seq<string>)

  predicate NoDuplicates(s: seq<string>)
  {
    forall i, j | 0 <= i < j < |s| :: s[i] != s[j]
  }

  function Names(s: seq<string>): set<string>
  {
    set x | x in s
  }

  /**
   * The names an expansion adds to the included set are new, each added
   * once, and exactly what the set gained.
   */
  predicate AddsOnce(included: set<string>, o: Outcome)
  {
    NoDuplicates(o.inlined) &&
    (forall i | 0 <= i < |o.inlined| :: o.inlined[i] !in included) &&
    o.included == included + Names(o.inlined)
  }

  lemma SetShrinks(keys: set<string>, included: set<string>, name: string)
    requires name in keys && name !in included
    ensures |keys - (included + {name})| < |keys - included|
  {
    assert keys - included == (keys - (included + {name})) + {name};
  }

  lemma {:induction false} SubsetCard(a: set<string>, b: set<string>)
    requires a <= b
    ensures |a| <= |b|
    decreases |b|
  {
    if a != {} {
      var x :| x in a;
      SubsetCard(a - {x}, b - {x});
    }
  }

  lemma SetNoLarger(keys: set<string>, included: set<string>, grown: set<string>)
    requires included <= grown
    ensures |keys - grown| <= |keys - included|
  {
    SubsetCard(keys - grown, keys - included);
  }

  lemma AddsOnceChain(included: set<string>, n: string, h: Outcome, rest: Outcome)
    requires n !in included
    requires AddsOnce(included + {n}, h) && AddsOnce(h.included, rest)
    ensures AddsOnce(included, rest.(inlined := [n] + h.inlined + rest.inlined))
  {
    var log := [n] + h.inlined + rest.inlined;
    assert forall i | 0 <= i < |h.inlined| :: log[1 + i] == h.inlined[i];
    assert forall i | 0 <= i < |rest.inlined| :: log[1 + |h.inlined| + i] == rest.inlined[i];
    assert Names(log) == {n} + Names(h.inlined) + Names(rest.inlined);
  }

  lemma AddsOnceFirst(included: set<string>, n: string, h: Outcome)
    requires n !in included
    requires AddsOnce(included + {n}, h)
    ensures AddsOnce(included, h.(inlined := [n] + h.inlined))
  {
    var log := [n] + h.inlined;
    assert forall i | 0 <= i < |h.inlined| :: log[1 + i] == h.inlined[i];
    assert Names(log) == {n} + Names(h.inlined);
  }

  /**
   * `expand_recursive` on `source`: the cached expansion if there is one;
   * the body unchanged when no line is an include; otherwise the lines
   * expanded in order, cached under the source name when that succeeds.
   */
  function ExpandSource(headers: map<string, string>, expanded: map<string, string>,
                        included: set<string>, source: Source): (o: Outcome)
    decreases |headers.Keys - included|, 1, 0, 0
    ensures included <= o.included <= included + headers.Keys && AddsOnce(included, o)
  {
    if source.name in expanded then Outcome(Ok(expanded[source.name]), expanded, included, [])
    else if !AnyPragma(Lines(source.body)) then
      Outcome(Ok(source.body), expanded[source.name := source.body], included, [])
    else
      var o := ExpandLines(headers, expanded, included, Lines(source.body), "");
      if o.result.Ok? then o.(expanded := o.expanded[source.name := o.result.value]) else o
  }

  /**
   * The loop over the lines of a body with an include: `buf` is what is
   * emitted so far. A plain line is emitted with a '\n'; an include line
   * is parsed, and a malformed one stops the expansion.
   */
  function ExpandLines(headers: map<string, string>, expanded: map<string, string>,
                       included: set<string>, lines: seq<string>, buf: string): (o: Outcome)
    decreases |headers.Keys - included|, 0, |lines|, 0
    ensures included <= o.included <= included + headers.Keys && AddsOnce(included, o)
  {
    if |lines| == 0 then Outcome(Ok(buf), expanded, included, [])
    else if !IsPragma(lines[0]) then
      ExpandLines(headers, expanded, included, lines[1..], buf + lines[0] + "\n")
    else
      match ParseIncludeName(lines[0][|Pragma|..])
      case Err(e) => Outcome(Err(e), expanded, included, [])
      case Ok(name) => ExpandInclude(headers, expanded, included, name, lines[1..], buf)
  }

  /**
   * An include of `name`, then the remaining lines: nothing is emitted for
   * a name already included; a name with no registered header is
   * `NotFound`; otherwise the name joins the included set and the
   * header's expansion is emitted, ending in '\n'.
   */
  function ExpandInclude(headers: map<string, string>, expanded: map<string, string>,
                         included: set<string>, name: string, rest: seq<string>, buf: string): (o: Outcome)
    decreases |headers.Keys - included|, 0, |rest|, 1
    ensures included <= o.included <= included + headers.Keys && AddsOnce(included, o)
  {
    if name in included then ExpandLines(headers, expanded, included, rest, buf)
    else if name !in headers then Outcome(Err(NotFound), expanded, included, [])
    else
      SetShrinks(headers.Keys, included, name);
      var h := ExpandSource(headers, expanded, included + {name}, Source(name, headers[name]));
      if h.result.Err? then
        AddsOnceFirst(included, name, h);
        h.(inlined := [name] + h.inlined)
      else
        SetNoLarger(headers.Keys, included + {name}, h.included);
        var o := ExpandLines(headers, h.expanded, h.included, rest, buf + LineEnded(h.result.value));
        AddsOnceChain(included, name, h, o);
        o.(inlined := [name] + h.inlined + o.inlined)
  }

  /** Two outcomes that leave the same result, cache and included set. */
  predicate SameEffect(a: Outcome, b: Outcome)
  {
    a.result == b.result && a.expanded == b.expanded && a.included == b.included
  }

  // Single steps of the expansion, one per branch of the loop body

  lemma PlainLineStep(headers: map<string, string>, expanded: map<string, string>,
                      included: set<string>, lines: seq<string>, i: nat, buf: string)
    requires i < |lines| && !IsPragma(lines[i])
    ensures ExpandLines(headers, expanded, included, lines[i..], buf) ==
            ExpandLines(headers, expanded, included, lines[i + 1..], buf + lines[i] + "\n")
  {
    assert lines[i..][1..] == lines[i + 1..];
  }

  lemma IncludeLineStep(headers: map<string, string>, expanded: map<string, string>,
                        included: set<string>, lines: seq<string>, i: nat, buf: string)
    requires i < |lines| && IsPragma(lines[i])
    ensures ExpandLines(headers, expanded, included, lines[i..], buf) ==
            match ParseIncludeName(lines[i][|Pragma|..])
            case Err(e) => Outcome(Err(e), expanded, included, [])
            case Ok(name) => ExpandInclude(headers, expanded, included, name, lines[i + 1..], buf)
  {
    assert lines[i..][1..] == lines[i + 1..];
  }

  lemma HeaderStep(headers: map<string, string>, expanded: map<string, string>,
                   included: set<string>, name: string, rest: seq<string>, buf: string)
    requires name !in included && name in headers
    ensures var h := ExpandSource(headers, expanded, included + {name}, Source(name, headers[name]));
      SameEffect(ExpandInclude(headers, expanded, included, name, rest, buf),
                 if h.result.Err? then h
                 else ExpandLines(headers, h.expanded, h.included, rest, buf + LineEnded(h.result.value)))
  {
  }

  // ---------------------------------------------------------------------
  // What an expansion promises

  /** A body with no include line comes back unchanged, with no '\n' added, and is cached. */
  lemma NoIncludeUnchanged(headers: map<string, string>, expanded: map<string, string>,
                           included: set<string>, source: Source)
    requires source.name !in expanded && !AnyPragma(Lines(source.body))
    ensures ExpandSource(headers, expanded, included, source) ==
            Outcome(Ok(source.body), expanded[source.name := source.body], included, [])
  {
  }

  /** Lines with no include are emitted in order, each followed by '\n', and nothing else changes. */
  lemma {:induction false} PlainLinesJoined(headers: map<string, string>, expanded: map<string, string>,
                                            included: set<string>, lines: seq<string>, buf: string)
    requires !AnyPragma(lines)
    ensures ExpandLines(headers, expanded, included, lines, buf) ==
            Outcome(Ok(buf + Join(lines)), expanded, included, [])
  {
    if |lines| > 0 {
      assert !AnyPragma(lines[1..]) by {
        assert forall j | 0 <= j < |lines[1..]| :: lines[1..][j] == lines[j + 1];
      }
      PlainLinesJoined(headers, expanded, included, lines[1..], buf + lines[0] + "\n");
      assert Join(lines) == lines[0] + "\n" + Join(lines[1..]);
      assert buf + lines[0] + "\n" + Join(lines[1..]) == buf + (lines[0] + "\n" + Join(lines[1..]));
    } else {
      assert buf + Join(lines) == buf;
    }
  }

  /** Plain lines before line k are emitted and the expansion carries on from line k. */
  lemma {:induction false} PlainPrefix(headers: map<string, string>, expanded: map<string, string>,
                                       included: set<string>, lines: seq<string>, k: nat, buf: string)
    requires k <= |lines|
    requires forall j | 0 <= j < k :: !IsPragma(lines[j])
    ensures ExpandLines(headers, expanded, included, lines, buf) ==
            ExpandLines(headers, expanded, included, lines[k..], buf + Join(lines[..k]))
  {
    if k == 0 {
      assert buf + Join(lines[..k]) == buf;
    } else {
      PlainPrefix(headers, expanded, included, lines[1..], k - 1, buf + lines[0] + "\n");
      assert lines[1..][k - 1..] == lines[k..];
      assert lines[..k][1..] == lines[1..][..k - 1];
      assert Join(lines[..k]) == lines[0] + "\n" + Join(lines[1..][..k - 1]);
      assert buf + lines[0] + "\n" + Join(lines[1..][..k - 1]) == buf + Join(lines[..k]);
    }
  }

  /**
   * When the first include line of a body names a header that is not
   * registered, the expansion fails with `NotFound`.
   */
  lemma UnregisteredIsNotFound(headers: map<string, string>, expanded: map<string, string>,
                               source: Source, k: nat)
    requires source.name !in expanded
    requires k < |Lines(source.body)| && IsPragma(Lines(source.body)[k])
    requires forall j | 0 <= j < k :: !IsPragma(Lines(source.body)[j])
    requires var p := ParseIncludeName(Lines(source.body)[k][|Pragma|..]); p.Ok? && p.value !in headers
    ensures ExpandSource(headers, expanded, {}, source).result == Err(NotFound)
  {
    var lines := Lines(source.body);
    PlainPrefix(headers, expanded, {}, lines, k, "");
    assert lines[k..][0] == lines[k];
  }

  /**
   * An expansion whose cache holds only names already included never reads
   * the cache: every header it reaches is new to the included set, so it is
   * not cached either, and is expanded from its own body. The entries it
   * adds are names it included, and the source's own name.
   */
  lemma NoHitSource(headers: map<string, string>, expanded: map<string, string>,
                    included: set<string>, source: Source)
    requires expanded.Keys <= included && source.name !in expanded
    ensures var o := ExpandSource(headers, expanded, included, source);
      o.expanded.Keys <= o.included + {source.name}
    decreases |headers.Keys - included|, 1, 0, 0
  {
    if AnyPragma(Lines(source.body)) {
      NoHitLines(headers, expanded, included, Lines(source.body), "");
    }
  }

  lemma NoHitLines(headers: map<string, string>, expanded: map<string, string>,
                   included: set<string>, lines: seq<string>, buf: string)
    requires expanded.Keys <= included
    ensures ExpandLines(headers, expanded, included, lines, buf).expanded.Keys <=
            ExpandLines(headers, expanded, included, lines, buf).included
    decreases |headers.Keys - included|, 0, |lines|, 0
  {
    if |lines| > 0 {
      if !IsPragma(lines[0]) {
        NoHitLines(headers, expanded, included, lines[1..], buf + lines[0] + "\n");
      } else if ParseIncludeName(lines[0][|Pragma|..]).Ok? {
        NoHitInclude(headers, expanded, included, ParseIncludeName(lines[0][|Pragma|..]).value, lines[1..], buf);
      }
    }
  }

  lemma NoHitInclude(headers: map<string, string>, expanded: map<string, string>,
                     included: set<string>, name: string, rest: seq<string>, buf: string)
    requires expanded.Keys <= included
    ensures ExpandInclude(headers, expanded, included, name, rest, buf).expanded.Keys <=
            ExpandInclude(headers, expanded, included, name, rest, buf).included
    decreases |headers.Keys - included|, 0, |rest|, 1
  {
    if name in included {
      NoHitLines(headers, expanded, included, rest, buf);
    } else if name in headers {
      SetShrinks(headers.Keys, included, name);
      var h := ExpandSource(headers, expanded, included + {name}, Source(name, headers[name]));
      NoHitSource(headers, expanded, included + {name}, Source(name, headers[name]));
      if h.result.Ok? {
        SetNoLarger(headers.Keys, included + {name}, h.included);
        NoHitLines(headers, h.expanded, h.included, rest, buf + LineEnded(h.result.value));
      }
    }
  }

  /**
   * Within a successful line loop that starts from registered names only,
   * every include line is well formed and names a registered header.
   */
  lemma {:induction false} LinesIncludeRegistered(headers: map<string, string>, expanded: map<string, string>,
                                                  included: set<string>, lines: seq<string>, buf: string)
    requires included <= headers.Keys
    requires ExpandLines(headers, expanded, included, lines, buf).result.Ok?
    ensures forall j | 0 <= j < |lines| && IsPragma(lines[j]) ::
      ParseIncludeName(lines[j][|Pragma|..]).Ok? && ParseIncludeName(lines[j][|Pragma|..]).value in headers
    decreases |lines|
  {
    if |lines| > 0 {
      assert forall j | 1 <= j < |lines| :: lines[j] == lines[1..][j - 1];
      if !IsPragma(lines[0]) {
        LinesIncludeRegistered(headers, expanded, included, lines[1..], buf + lines[0] + "\n");
      } else {
        var name := ParseIncludeName(lines[0][|Pragma|..]).value;
        if name in included {
          LinesIncludeRegistered(headers, expanded, included, lines[1..], buf);
        } else {
          var h := ExpandSource(headers, expanded, included + {name}, Source(name, headers[name]));
          LinesIncludeRegistered(headers, h.expanded, h.included, lines[1..], buf + LineEnded(h.result.value));
        }
      }
    }
  }

  /**
   * A top-level expansion that succeeds had no malformed include line and
   * no include of an unregistered header, wherever in the body it stands:
   * either makes the expansion fail.
   */
  lemma IncludesRegistered(headers: map<string, string>, expanded: map<string, string>, source: Source)
    requires source.name !in expanded
    requires ExpandSource(headers, expanded, {}, source).result.Ok?
    ensures forall j | 0 <= j < |Lines(source.body)| && IsPragma(Lines(source.body)[j]) ::
      ParseIncludeName(Lines(source.body)[j][|Pragma|..]).Ok? &&
      ParseIncludeName(Lines(source.body)[j][|Pragma|..]).value in headers
  {
    if AnyPragma(Lines(source.body)) {
      LinesIncludeRegistered(headers, expanded, {}, Lines(source.body), "");
    }
  }

  /** Every line of an expansion with an include ends in '\n': the text is empty or its last character is '\n'. */
  predicate EndsInNewline(text: string)
  {
    |text| == 0 || text[|text| - 1] == '\n'
  }

  lemma AppendKeepsNewline(buf: string, text: string)
    requires |text| > 0 && text[|text| - 1] == '\n'
    ensures EndsInNewline(buf + text)
  {
    assert (buf + text)[|buf + text| - 1] == text[|text| - 1];
  }

  lemma {:induction false} LinesEndInNewline(headers: map<string, string>, expanded: map<string, string>,
                                             included: set<string>, lines: seq<string>, buf: string)
    requires EndsInNewline(buf)
    ensures var o := ExpandLines(headers, expanded, included, lines, buf);
      o.result.Ok? ==> EndsInNewline(o.result.value)
    decreases |headers.Keys - included|, 0, |lines|, 0
  {
    if |lines| > 0 {
      if !IsPragma(lines[0]) {
        AppendKeepsNewline(buf + lines[0], "\n");
        assert buf + lines[0] + "\n" == (buf + lines[0]) + "\n";
        LinesEndInNewline(headers, expanded, included, lines[1..], buf + lines[0] + "\n");
      } else if ParseIncludeName(lines[0][|Pragma|..]).Ok? {
        IncludeEndsInNewline(headers, expanded, included, ParseIncludeName(lines[0][|Pragma|..]).value, lines[1..], buf);
      }
    }
  }

  lemma {:induction false} IncludeEndsInNewline(headers: map<string, string>, expanded: map<string, string>,
                                                included: set<string>, name: string, rest: seq<string>, buf: string)
    requires EndsInNewline(buf)
    ensures var o := ExpandInclude(headers, expanded, included, name, rest, buf);
      o.result.Ok? ==> EndsInNewline(o.result.value)
    decreases |headers.Keys - included|, 0, |rest|, 1
  {
    if name in included {
      LinesEndInNewline(headers, expanded, included, rest, buf);
    } else if name in headers {
      SetShrinks(headers.Keys, included, name);
      var h := ExpandSource(headers, expanded, included + {name}, Source(name, headers[name]));
      if h.result.Ok? {
        SetNoLarger(headers.Keys, included + {name}, h.included);
        AppendKeepsNewline(buf, LineEnded(h.result.value));
        LinesEndInNewline(headers, h.expanded, h.included, rest, buf + LineEnded(h.result.value));
      }
    }
  }

  /**
   * A body with an include expands to text whose every line ends in '\n'
   * (so the text is empty or ends in '\n').
   */
  lemma ExpansionEndsInNewline(headers: map<string, string>, expanded: map<string, string>,
                               included: set<string>, source: Source)
    requires source.name !in expanded && AnyPragma(Lines(source.body))
    ensures var o := ExpandSource(headers, expanded, included, source);
      o.result.Ok? ==> EndsInNewline(o.result.value)
  {
    LinesEndInNewline(headers, expanded, included, Lines(source.body), "");
  }

  /** Entries already in the cache are never overwritten or dropped. */
  predicate Extends(old_: map<string, string>, new_: map<string, string>)
  {
    forall n | n in old_ :: n in new_ && new_[n] == old_[n]
  }

  lemma {:induction false} SourceKeepsCache(headers: map<string, string>, expanded: map<string, string>,
                                            included: set<string>, source: Source)
    ensures Extends(expanded, ExpandSource(headers, expanded, included, source).expanded)
    decreases |headers.Keys - included|, 1, 0, 0
  {
    if source.name !in expanded && AnyPragma(Lines(source.body)) {
      LinesKeepCache(headers, expanded, included, Lines(source.body), "");
    }
  }

  lemma {:induction false} LinesKeepCache(headers: map<string, string>, expanded: map<string, string>,
                                          included: set<string>, lines: seq<string>, buf: string)
    ensures Extends(expanded, ExpandLines(headers, expanded, included, lines, buf).expanded)
    decreases |headers.Keys - included|, 0, |lines|, 0
  {
    if |lines| > 0 {
      if !IsPragma(lines[0]) {
        LinesKeepCache(headers, expanded, included, lines[1..], buf + lines[0] + "\n");
      } else if ParseIncludeName(lines[0][|Pragma|..]).Ok? {
        IncludeKeepsCache(headers, expanded, included, ParseIncludeName(lines[0][|Pragma|..]).value, lines[1..], buf);
      }
    }
  }

  lemma {:induction false} IncludeKeepsCache(headers: map<string, string>, expanded: map<string, string>,
                                             included: set<string>, name: string, rest: seq<string>, buf: string)
    ensures Extends(expanded, ExpandInclude(headers, expanded, included, name, rest, buf).expanded)
    decreases |headers.Keys - included|, 0, |rest|, 1
  {
    if name in included {
      LinesKeepCache(headers, expanded, included, rest, buf);
    } else if name in headers {
      SetShrinks(headers.Keys, included, name);
      var h := ExpandSource(headers, expanded, included + {name}, Source(name, headers[name]));
      SourceKeepsCache(headers, expanded, included + {name}, Source(name, headers[name]));
      if h.result.Ok? {
        SetNoLarger(headers.Keys, included + {name}, h.included);
        LinesKeepCache(headers, h.expanded, h.included, rest, buf + LineEnded(h.result.value));
      }
    }
  }

  /** A successful expansion is cached under the source's name. */
  lemma SuccessIsCached(headers: map<string, string>, expanded: map<string, string>,
                        included: set<string>, source: Source)
    ensures var o := ExpandSource(headers, expanded, included, source);
      o.result.Ok? ==> source.name in o.expanded && o.expanded[source.name] == o.result.value
  {
  }

  /**
   * Expanding a name a second time returns the first result without
   * reading the body again, and changes nothing.
   */
  lemma SecondExpandIsCached(headers: map<string, string>, expanded: map<string, string>,
                             source: Source, body: string)
    requires ExpandSource(headers, expanded, {}, source).result.Ok?
    ensures var o := ExpandSource(headers, expanded, {}, source);
      ExpandSource(headers, o.expanded, {}, Source(source.name, body)) == Outcome(o.result, o.expanded, {}, [])
  {
    SuccessIsCached(headers, expanded, {}, source);
  }

  // ---------------------------------------------------------------------
  // The preprocessor object

  /** `.lines().any(|l| l.starts_with(pragma))`. */
  method HasPragma(lines: seq<string>) returns (found: bool)
    ensures found == AnyPragma(lines)
  {
    found := false;
    for i := 0 to |lines|
      invariant found == exists j | 0 <= j < i :: IsPragma(lines[j])
    {
      if IsPragma(lines[i]) {
        found := true;
      }
    }
  }

  class Preprocessor {
    /** Registered headers, by name. */
    var headers: map<string, string>
    /** Memoised expansions, by source name. */
    var expanded: map<string, string>

    constructor()
      ensures headers == map[] && expanded == map[]
    {
      headers := map[];
      expanded := map[];
    }

    /** `add_header`: registers the body under its name, replacing an earlier header of that name. */
    method AddHeader(source: Source)
      modifies this
      ensures headers == old(headers)[source.name := source.body]
      ensures expanded == old(expanded)
    {
      headers := headers[source.name := source.body];
    }

    /** `expand`: a top-level expansion, starting with no header included. */
    method Expand(source: Source) returns (result: Result<string, Error>)
      modifies this
      ensures headers == old(headers)
      ensures var o := ExpandSource(old(headers), old(expanded), {}, source);
        result == o.result && expanded == o.expanded
    {
      var included;
      result, included := ExpandRecursive(source, {});
    }

    /** `expand_recursive`, with the shared `included_names` set passed in and handed back. */
    method ExpandRecursive(source: Source, included0: set<string>)
      returns (result: Result<string, Error>, included: set<string>)
      modifies this
      decreases |headers.Keys - included0|, 1
      ensures headers == old(headers)
      ensures var o := ExpandSource(old(headers), old(expanded), included0, source);
        result == o.result && expanded == o.expanded && included == o.included
    {
      if source.name in expanded {
        return Ok(expanded[source.name]), included0;
      }
      var lines := Lines(source.body);
      var hasPragma := HasPragma(lines);
      if !hasPragma {
        expanded := expanded[source.name := source.body];
        return Ok(source.body), included0;
      }
      result, included := ExpandBody(lines, included0);
      if result.Ok? {
        expanded := expanded[source.name := result.value];
      }
    }

    /** The line loop of `expand_recursive` over a body with an include line. */
    method ExpandBody(lines: seq<string>, included0: set<string>)
      returns (result: Result<string, Error>, included: set<string>)
      modifies this
      decreases |headers.Keys - included0|, 0
      ensures headers == old(headers)
      ensures var o := ExpandLines(old(headers), old(expanded), included0, lines, "");
        result == o.result && expanded == o.expanded && included == o.included
    {
      included := included0;
      ghost var goal := ExpandLines(headers, expanded, included0, lines, "");
      var buf := "";
      for i := 0 to |lines|
        invariant headers == old(headers) && included0 <= included
        invariant SameEffect(ExpandLines(headers, expanded, included, lines[i..], buf), goal)
      {
        var line := lines[i];
        if IsPragma(line) {
          IncludeLineStep(headers, expanded, included, lines, i, buf);
          var parsed := ParseIncludeName(line[|Pragma|..]);
          if parsed.Err? {
            return Err(parsed.error), included;
          }
          var name := parsed.value;
          if name in included {
            continue;
          }
          if name !in headers {
            return Err(NotFound), included;
          }
          SetShrinks(headers.Keys, included, name);
          SetNoLarger(headers.Keys, included0, included);
          HeaderStep(headers, expanded, included, name, lines[i + 1..], buf);
          included := included + {name};
          var header;
          header, included := ExpandRecursive(Source(name, headers[name]), included);
          if header.Err? {
            return header, included;
          }
          buf := buf + LineEnded(header.value);
        } else {
          PlainLineStep(headers, expanded, included, lines, i, buf);
          buf := buf + line + "\n";
        }
      }
      return Ok(buf), included;
    }
  }
}
