/** The Markdown preprocessor: `run` walks the document's lines, `process_line`
    recognises a directive line, and `extract_configuration` reads the indented
    JSON block that follows it. `json.loads` is the parameter `parse`. */
module Scanner {
  import opened Python
  import opened Text
  import opened JsonConfig
  import opened Models
  import opened Resolver
  import opened Render

  /** `json.loads`: the value a string parses to, or None for a JSONDecodeError. */
  type Parser = string -> Option<Json>

  const DirectivePrefix: string := "!docdantic: "

  /** `re.match(r"^\!docdantic: (.*)$", line).group(1)`: `.` does not match a newline,
      and `$` matches at the end or just before a final newline. */
  function DirectivePath(line: string): (r: Option<string>)
    ensures r.Some? ==> '\n' !in r.value
    ensures r.Some? ==> line == DirectivePrefix + r.value || line == DirectivePrefix + r.value + "\n"
  {
    if !StartsWith(line, DirectivePrefix) then None
    else
      var rest := line[|DirectivePrefix|..];
      assert line == DirectivePrefix + rest;
      if '\n' !in rest then Some(rest)
      else if rest[|rest| - 1] == '\n' && '\n' !in rest[..|rest| - 1] then
        assert rest == rest[..|rest| - 1] + "\n";
        Some(rest[..|rest| - 1])
      else None
  }

  /** Every path without a newline is recognised after the prefix, with or without a
      final newline; with the postcondition of `DirectivePath` this is the whole regex. */
  lemma DirectivePathRoundTrip(path: string)
    requires '\n' !in path
    ensures DirectivePath(DirectivePrefix + path) == Some(path)
    ensures DirectivePath(DirectivePrefix + path + "\n") == Some(path)
  {
    var line := DirectivePrefix + path;
    assert line[..|DirectivePrefix|] == DirectivePrefix;
    assert line[|DirectivePrefix|..] == path;
    var line' := DirectivePrefix + path + "\n";
    assert line'[..|DirectivePrefix|] == DirectivePrefix;
    assert line'[|DirectivePrefix|..] == path + "\n";
    assert (path + "\n")[..|path|] == path;
  }

  /** `re.match(r"^[ \t]{2,4}", line)`: there is no end anchor, so the line qualifies
      exactly when its first two characters are spaces or tabs. */
  predicate Indented(line: string) {
    |line| >= 2 && line[0] in " \t" && line[1] in " \t"
  }

  /** The lines after `index` up to and including `end` exist. */
  predicate Span(lines: seq<string>, index: nat, end: nat) {
    index <= end && (end == index || end < |lines|)
  }

  /** The index `extract_configuration` stops at: the last of the indented lines
      that directly follow line `index`, or `index` itself when there are none. */
  function BlockEnd(lines: seq<string>, index: nat): (j: nat)
    ensures Span(lines, index, j)
    decreases |lines| - index
  {
    if index + 1 < |lines| && Indented(lines[index + 1]) then BlockEnd(lines, index + 1) else index
  }

  /** The block is the longest run of indented lines directly after `index`: every
      line in it is indented, and the line after it is missing or is not. */
  lemma {:induction false} BlockEndIsLongestRun(lines: seq<string>, index: nat)
    ensures forall k :: index < k <= BlockEnd(lines, index) ==> Indented(lines[k])
    ensures BlockEnd(lines, index) + 1 >= |lines| || !Indented(lines[BlockEnd(lines, index) + 1])
    decreases |lines| - index
  {
    if index + 1 < |lines| && Indented(lines[index + 1]) {
      BlockEndIsLongestRun(lines, index + 1);
    }
  }

  /** `json_string` once the lines after `index` up to `end` are consumed: each one
      stripped, concatenated in order. */
  function Joined(lines: seq<string>, index: nat, end: nat): string
    requires Span(lines, index, end)
    decreases end
  {
    if end == index then "" else Joined(lines, index, end - 1) + Strip(lines[end])
  }

  /** `config` once the lines after `index` up to `end` are consumed: the value of the
      last accumulated string that parsed, or `{}` if none did. */
  function LastParsed(parse: Parser, lines: seq<string>, index: nat, end: nat): Json
    requires Span(lines, index, end)
    decreases end
  {
    if end == index then EmptyConfig
    else
      match parse(Joined(lines, index, end))
      case Some(c) => c
      case None => LastParsed(parse, lines, index, end - 1)
  }

  /** The end of the longest accumulated string that parses, or `index` when none does. */
  function LongestParse(parse: Parser, lines: seq<string>, index: nat, end: nat): (e: nat)
    requires Span(lines, index, end)
    ensures index <= e <= end
    ensures e > index ==> parse(Joined(lines, index, e)).Some?
    ensures forall e' :: e < e' <= end ==> parse(Joined(lines, index, e')).None?
    decreases end
  {
    if end == index || parse(Joined(lines, index, end)).Some? then end
    else LongestParse(parse, lines, index, end - 1)
  }

  /** The configuration is `{}` when no accumulated string parses, and otherwise the
      parse of the longest one that does. */
  lemma {:induction false} LastParsedIsLongest(parse: Parser, lines: seq<string>, index: nat, end: nat)
    requires Span(lines, index, end)
    ensures var e := LongestParse(parse, lines, index, end);
      LastParsed(parse, lines, index, end) == if e == index then EmptyConfig else parse(Joined(lines, index, e)).value
    decreases end
  {
    if end > index && parse(Joined(lines, index, end)).None? {
      LastParsedIsLongest(parse, lines, index, end - 1);
    }
  }

  /** `extract_configuration(index, lines)`: consumes the indented lines after `index`,
      re-parsing the stripped, concatenated block after each one; a failed parse is
      ignored and the scan goes on. */
  method ExtractConfiguration(index: nat, lines: seq<string>, parse: Parser) returns (config: Json, next: nat)
    ensures next == BlockEnd(lines, index)
    ensures config == LastParsed(parse, lines, index, next)
  {
    config := EmptyConfig;
    var json := "";
    next := index;
    while next + 1 < |lines|
      invariant Span(lines, index, next)
      invariant BlockEnd(lines, next) == BlockEnd(lines, index)
      invariant json == Joined(lines, index, next)
      invariant config == LastParsed(parse, lines, index, next)
      decreases |lines| - next
    {
      var nextLine := lines[next + 1];
      if !Indented(nextLine) {
        break;
      }
      BlockGrows(lines, index, next);
      json := json + Strip(nextLine);
      var parsed := parse(json);
      if parsed.Some? {
        config := parsed.value;
      }
      next := next + 1;
    }
    assert BlockEnd(lines, next) == next;
  }

  /** An indented line after `next` belongs to the same block. */
  lemma BlockGrows(lines: seq<string>, index: nat, next: nat)
    requires Span(lines, index, next) && next + 1 < |lines| && Indented(lines[next + 1])
    ensures Span(lines, index, next + 1)
    ensures BlockEnd(lines, next + 1) == BlockEnd(lines, next)
  {
  }

  /** `process_line(index, lines)`: a line that is not a directive comes back unchanged
      with the same index; a directive consumes its configuration block and comes back
      as the rendered text, or unchanged when nothing was rendered; an exception from
      rendering propagates. */
  function ProcessedLine(index: nat, lines: seq<string>, parse: Parser, modules: Modules, pr: Printer, tab: Tabulate)
    : Result<(string, nat)>
    requires index < |lines|
  {
    match DirectivePath(lines[index])
    case None => Ok((lines[index], index))
    case Some(path) =>
      var next := BlockEnd(lines, index);
      match Rendered(path, LastParsed(parse, lines, index, next), modules, pr, tab)
      case Err(e) => Err(e)
      case Ok(table) => Ok((if table != "" then table else lines[index], next))
  }

  method ProcessLine(index: nat, lines: seq<string>, parse: Parser, modules: Modules, pr: Printer, tab: Tabulate)
    returns (r: Result<(string, nat)>)
    requires index < |lines|
    ensures r == ProcessedLine(index, lines, parse, modules, pr, tab)
  {
    var line := lines[index];
    var path := DirectivePath(line);
    if path.None? {
      return Ok((line, index));
    }
    var config, next := ExtractConfiguration(index, lines, parse);
    var table := RenderTable(path.value, config, modules, pr, tab);
    if table.Err? {
      return Err(table.error);
    }
    if table.value != "" {
      return Ok((table.value, next));
    }
    return Ok((line, next));
  }

  /** A processed line never moves the index back nor past the document. */
  lemma ProcessedLineAdvances(index: nat, lines: seq<string>, parse: Parser, modules: Modules, pr: Printer, tab: Tabulate)
    requires index < |lines|
    requires ProcessedLine(index, lines, parse, modules, pr, tab).Ok?
    ensures var next := ProcessedLine(index, lines, parse, modules, pr, tab).value.1;
      index <= next < |lines|
  {
  }

  /** `parsed_lines + rest`, or the exception that stopped the scan. */
  function Prepend(parsed: seq<string>, rest: Result<seq<string>>): Result<seq<string>> {
    match rest
    case Err(e) => Err(e)
    case Ok(tail) => Ok(parsed + tail)
  }

  /** What `run` emits for the lines from `index` on: each line in turn is processed,
      and the scan resumes after the index `process_line` returns. */
  function Scan(lines: seq<string>, index: nat, parse: Parser, modules: Modules, pr: Printer, tab: Tabulate)
    : Result<seq<string>>
    requires index <= |lines|
    decreases |lines| - index
  {
    if index == |lines| then Ok([])
    else
      match ProcessedLine(index, lines, parse, modules, pr, tab)
      case Err(e) => Err(e)
      case Ok((out, next)) => Prepend([out], Scan(lines, next + 1, parse, modules, pr, tab))
  }

  /** `DocdanticPreprocessor.run(lines)`. */
  method Run(lines: seq<string>, parse: Parser, modules: Modules, pr: Printer, tab: Tabulate)
    returns (r: Result<seq<string>>)
    ensures r == Scan(lines, 0, parse, modules, pr, tab)
  {
    var parsed: seq<string> := [];
    var index: nat := 0;
    PrependNothing(Scan(lines, 0, parse, modules, pr, tab));
    while index < |lines|
      invariant index <= |lines|
      invariant Scan(lines, 0, parse, modules, pr, tab) == Prepend(parsed, Scan(lines, index, parse, modules, pr, tab))
      decreases |lines| - index
    {
      var err;
      err, parsed, index := RunStep(lines, index, parsed, parse, modules, pr, tab);
      if err.Some? {
        return Err(err.value);
      }
    }
    assert parsed + [] == parsed;
    r := Ok(parsed);
  }

  /** One pass of `run`'s loop: process the line at `index`, append what comes back,
      and move past the index `process_line` returned. */
  method RunStep(lines: seq<string>, index: nat, parsed: seq<string>, parse: Parser, modules: Modules, pr: Printer, tab: Tabulate)
    returns (err: Option<PyError>, parsed': seq<string>, index': nat)
    requires index < |lines|
    ensures err.Some? ==> Prepend(parsed, Scan(lines, index, parse, modules, pr, tab)) == Err(err.value)
    ensures err.None? ==> index < index' <= |lines|
    ensures err.None? ==> Prepend(parsed, Scan(lines, index, parse, modules, pr, tab))
                          == Prepend(parsed', Scan(lines, index', parse, modules, pr, tab))
  {
    var step := ProcessLine(index, lines, parse, modules, pr, tab);
    if step.Err? {
      ScanStops(lines, index, parse, modules, pr, tab, step.error);
      return Some(step.error), parsed, index;
    }
    var out := step.value.0;
    var next := step.value.1;
    ScanStep(lines, index, parse, modules, pr, tab, out, next);
    PrependTwice(parsed, [out], Scan(lines, next + 1, parse, modules, pr, tab));
    return None, parsed + [out], next + 1;
  }

  lemma PrependNothing(rest: Result<seq<string>>)
    ensures Prepend([], rest) == rest
  {
    if rest.Ok? {
      assert [] + rest.value == rest.value;
    }
  }

  lemma PrependTwice(a: seq<string>, b: seq<string>, rest: Result<seq<string>>)
    ensures Prepend(a, Prepend(b, rest)) == Prepend(a + b, rest)
  {
    if rest.Ok? {
      assert a + (b + rest.value) == (a + b) + rest.value;
    }
  }

  /** One step of `run`: the processed line, then the scan from just past the index
      `process_line` returned. */
  lemma ScanStep(lines: seq<string>, index: nat, parse: Parser, modules: Modules, pr: Printer, tab: Tabulate, out: string, next: nat)
    requires index < |lines|
    requires ProcessedLine(index, lines, parse, modules, pr, tab) == Ok((out, next))
    ensures next + 1 <= |lines|
    ensures Scan(lines, index, parse, modules, pr, tab) == Prepend([out], Scan(lines, next + 1, parse, modules, pr, tab))
  {
  }

  /** An exception from `process_line` ends `run`. */
  lemma ScanStops(lines: seq<string>, index: nat, parse: Parser, modules: Modules, pr: Printer, tab: Tabulate, e: PyError)
    requires index < |lines|
    requires ProcessedLine(index, lines, parse, modules, pr, tab) == Err(e)
    ensures Scan(lines, index, parse, modules, pr, tab) == Err(e)
  {
  }

  /** A document without a directive line comes back unchanged. */
  lemma {:induction false} ScanWithoutDirectives(lines: seq<string>, index: nat, parse: Parser, modules: Modules, pr: Printer, tab: Tabulate)
    requires index <= |lines|
    requires forall k :: index <= k < |lines| ==> !StartsWith(lines[k], DirectivePrefix)
    ensures Scan(lines, index, parse, modules, pr, tab) == Ok(lines[index..])
    decreases |lines| - index
  {
    if index < |lines| {
      ScanWithoutDirectives(lines, index + 1, parse, modules, pr, tab);
      assert lines[index..] == [lines[index]] + lines[index + 1..];
    }
  }

  /** `run` emits at most one element per input line. */
  lemma {:induction false} ScanShrinks(lines: seq<string>, index: nat, parse: Parser, modules: Modules, pr: Printer, tab: Tabulate)
    requires index <= |lines|
    requires Scan(lines, index, parse, modules, pr, tab).Ok?
    ensures |Scan(lines, index, parse, modules, pr, tab).value| <= |lines| - index
    decreases |lines| - index
  {
    if index < |lines| {
      var next := ProcessedLine(index, lines, parse, modules, pr, tab).value.1;
      ScanShrinks(lines, next + 1, parse, modules, pr, tab);
    }
  }

  /** A directive naming nothing renderable stays in the document as written, and its
      configuration block is still consumed. */
  lemma UnresolvedDirectiveKept(index: nat, lines: seq<string>, parse: Parser, modules: Modules, pr: Printer, tab: Tabulate)
    requires index < |lines|
    requires DirectivePath(lines[index]).Some?
    requires NotFound(DirectivePath(lines[index]).value, modules)
    ensures ProcessedLine(index, lines, parse, modules, pr, tab) == Ok((lines[index], BlockEnd(lines, index)))
  {
    var path := DirectivePath(lines[index]).value;
    RenderedEmptyIffNotFound(path, LastParsed(parse, lines, index, BlockEnd(lines, index)), modules, pr, tab);
  }

  /** A directive naming a model is replaced by the model's tables. */
  lemma ResolvedDirectiveReplaced(index: nat, lines: seq<string>, parse: Parser, modules: Modules, pr: Printer, tab: Tabulate, m: Model)
    requires index < |lines|
    requires DirectivePath(lines[index]).Some?
    requires ImportClass(DirectivePath(lines[index]).value, modules) == Ok(Some(ModelAttribute(m)))
    requires ProcessedLine(index, lines, parse, modules, pr, tab).Ok?
    ensures StartsWith(ProcessedLine(index, lines, parse, modules, pr, tab).value.0, "\n### " + m.name + "\n\n")
  {
    var path := DirectivePath(lines[index]).value;
    var config := LastParsed(parse, lines, index, BlockEnd(lines, index));
    RenderedStartsWithRoot(path, config, modules, pr, tab, m);
  }
}
