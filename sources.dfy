/** `parse_sources_file`: the line-oriented reader of `docs/context/sources.yml`, a small
    subset of YAML listing, for each source repository, its name, a ref and the paths to
    snapshot. */
module SyncContext {
  import opened Wrappers
  import opened Text
  import Sorting

  datatype SourceSpec = SourceSpec(repo: string, ref: string, paths: seq<string>)

  /** The value under `"paths"` in the entry being read: the list path items are appended to,
      or a string when a key/value line named `paths` overwrote it. */
  datatype PathsValue = PathList(items: seq<string>) | PathText(text: string)

  /** The dict `current`, reduced to the keys the flush reads; other keys are stored by the
      parser but never looked at. `"paths"` is present from the moment the entry starts. */
  datatype Entry = Entry(repo: Option<string>, ref: Option<string>, paths: PathsValue)

  /** Why `parse_sources_file` raises ValueError; the line-carrying cases hold the raw line. */
  datatype SourcesError =
    | EmptyFile
    | ExpectedSources
    | MalformedEntry(line: string)
    | ContentBeforeEntry(line: string)
    | EmptyPathItem
    | PathsNotList
    | MalformedKeyValue(line: string)
    | Unsupported(line: string)
    | MissingRepo
    | MissingRef
    | MissingPaths
    | NoSources

  /** The text of the ValueError. */
  function Message(e: SourcesError): string {
    match e
    case EmptyFile => "sources file is empty"
    case ExpectedSources => "Expected top-level 'sources:' key"
    case MalformedEntry(line) => "Malformed source entry line: " + line
    case ContentBeforeEntry(line) => "Unexpected content before first source entry: " + line
    case EmptyPathItem => "Path list entries must be non-empty"
    case PathsNotList => "'paths' must be a list"
    case MalformedKeyValue(line) => "Malformed key/value line: " + line
    case Unsupported(line) => "Unsupported or mis-indented line: " + line
    case MissingRepo => "Each source requires a non-empty 'repo'"
    case MissingRef => "Each source requires a non-empty 'ref'"
    case MissingPaths => "Each source requires a non-empty string list for 'paths'"
    case NoSources => "No sources configured"
  }

  /** The parser's variables between two lines: `in_sources`, `current`, `in_paths`, `specs`. */
  datatype Parser = Parser(inSources: bool, current: Option<Entry>, inPaths: bool, specs: seq<SourceSpec>)

  const Start := Parser(false, None, false, [])

  /** A line with its comment and trailing whitespace removed. */
  function Content(raw: string): string {
    RStrip(BeforeFirst(raw, '#'))
  }

  /** `s.lstrip(" ")`: only spaces count as indentation. */
  function LStripSpaces(s: string): (r: string)
    ensures |r| <= |s| && (r == [] || r[0] != ' ')
  {
    if s != [] && s[0] == ' ' then LStripSpaces(s[1..]) else s
  }

  /** `current[key] = value`, for the keys the flush reads. */
  function SetKey(e: Entry, key: string, value: string): Entry {
    if key == "repo" then e.(repo := Some(value))
    else if key == "ref" then e.(ref := Some(value))
    else if key == "paths" then e.(paths := PathText(value))
    else e
  }

  /** A path list the flush accepts: non-empty, every item a non-empty string. */
  predicate GoodPaths(v: PathsValue) {
    v.PathList? && v.items != [] && forall k :: 0 <= k < |v.items| ==> v.items[k] != ""
  }

  /** `flush_current`: the entry being read, if any, is checked and appended to `specs`. */
  function Flush(current: Option<Entry>, specs: seq<SourceSpec>): (r: Result<seq<SourceSpec>, SourcesError>)
    ensures current.None? ==> r == Success(specs)
    ensures r.Failure? ==> r.error in {MissingRepo, MissingRef, MissingPaths}
  {
    match current
    case None => Success(specs)
    case Some(e) =>
      if e.repo.None? || e.repo.value == "" then Failure(MissingRepo)
      else if e.ref.None? || e.ref.value == "" then Failure(MissingRef)
      else if !GoodPaths(e.paths) then Failure(MissingPaths)
      else Success(specs + [SourceSpec(e.repo.value, e.ref.value, e.paths.items)])
  }

  /** An indent-2 `- ` line: the previous entry is flushed and a new one begins, holding the
      key/value pair written after the dash, if any. */
  function StartEntry(p: Parser, rest: string, raw: string): Result<Parser, SourcesError> {
    var specs :- Flush(p.current, p.specs);
    var e := Entry(None, None, PathList([]));
    if rest == "" then Success(Parser(p.inSources, Some(e), false, specs))
    else
      var (key, found, value) := Partition(rest, ':');
      if !found then Failure(MalformedEntry(raw))
      else Success(Parser(p.inSources, Some(SetKey(e, Strip(key), Strip(value))), false, specs))
  }

  /** An indent-6 `- ` line in path mode: the stripped item is appended to the path list. */
  function AddPath(p: Parser, item: string): Result<Parser, SourcesError>
    requires p.current.Some?
  {
    var e := p.current.value;
    if item == "" then Failure(EmptyPathItem)
    else if !e.paths.PathList? then Failure(PathsNotList)
    else Success(p.(current := Some(e.(paths := PathList(e.paths.items + [item])))))
  }

  /** Any other indent-4 line: a key/value pair of the current entry; a key other than
      `paths` leaves path mode. */
  function KeyValue(p: Parser, stripped: string, raw: string): Result<Parser, SourcesError>
    requires p.current.Some?
  {
    var (key, found, value) := Partition(stripped, ':');
    if !found then Failure(MalformedKeyValue(raw))
    else
      var k := Strip(key);
      Success(p.(current := Some(SetKey(p.current.value, k, Strip(value))),
                 inPaths := if k != "paths" then false else p.inPaths))
  }

  /** A line with content inside the sources list, by its indentation. */
  function ListLine(p: Parser, line: string, raw: string): (r: Result<Parser, SourcesError>)
    ensures r.Success? ==> r.value.inSources == p.inSources
  {
    var stripped := LStripSpaces(line);
    var indent := |line| - |stripped|;
    if indent == 2 && StartsWith(stripped, "- ") then StartEntry(p, stripped[2..], raw)
    else if p.current.None? then Failure(ContentBeforeEntry(raw))
    else if indent == 4 && StartsWith(stripped, "paths:") then Success(p.(inPaths := true))
    else if indent == 6 && StartsWith(stripped, "- ") && p.inPaths then AddPath(p, Strip(stripped[2..]))
    else if indent == 4 then KeyValue(p, stripped, raw)
    else Failure(Unsupported(raw))
  }

  /** One iteration of the loop over the file's lines. */
  function Step(p: Parser, raw: string): Result<Parser, SourcesError> {
    var line := Content(raw);
    if line == "" then Success(p)
    else if !p.inSources then
      if Strip(line) == "sources:" then Success(p.(inSources := true)) else Failure(ExpectedSources)
    else ListLine(p, line, raw)
  }

  /** The parse of a file already split into lines. */
  function ParseLines(lines: seq<string>): Result<seq<SourceSpec>, SourcesError> {
    if lines == [] then Failure(EmptyFile)
    else
      var p :- Fold(Step, Start, lines);
      var specs :- Flush(p.current, p.specs);
      if specs == [] then Failure(NoSources) else Success(specs)
  }

  /** `parse_sources_file` on the file's text. */
  function ParseSources(text: string): Result<seq<SourceSpec>, SourcesError> {
    ParseLines(SplitLines(text))
  }

  /** The loop body for a line with content inside the sources list: the branches on the
      line's indentation, each updating the entry being read, path mode or the sources. */
  method ReadListLine(current: Option<Entry>, inPaths: bool, specs: seq<SourceSpec>, line: string, raw: string)
    returns (r: Result<Parser, SourcesError>)
    ensures r == ListLine(Parser(true, current, inPaths, specs), line, raw)
  {
    var stripped := LStripSpaces(line);
    var indent := |line| - |stripped|;
    if indent == 2 && StartsWith(stripped, "- ") {
      var flushed := Flush(current, specs);
      if flushed.Failure? {
        return Failure(flushed.error);
      }
      var entry := Entry(None, None, PathList([]));
      var rest := stripped[2..];
      if rest != "" {
        var (key, found, value) := Partition(rest, ':');
        if !found {
          return Failure(MalformedEntry(raw));
        }
        entry := SetKey(entry, Strip(key), Strip(value));
      }
      return Success(Parser(true, Some(entry), false, flushed.value));
    }
    if current.None? {
      return Failure(ContentBeforeEntry(raw));
    }
    var e := current.value;
    if indent == 4 && StartsWith(stripped, "paths:") {
      return Success(Parser(true, current, true, specs));
    }
    if indent == 6 && StartsWith(stripped, "- ") && inPaths {
      var item := Strip(stripped[2..]);
      if item == "" {
        return Failure(EmptyPathItem);
      }
      if !e.paths.PathList? {
        return Failure(PathsNotList);
      }
      return Success(Parser(true, Some(e.(paths := PathList(e.paths.items + [item]))), inPaths, specs));
    }
    if indent == 4 {
      var (key, found, value) := Partition(stripped, ':');
      if !found {
        return Failure(MalformedKeyValue(raw));
      }
      var k := Strip(key);
      var stillInPaths := inPaths;
      if k != "paths" {
        stillInPaths := false;
      }
      return Success(Parser(true, Some(SetKey(e, k, Strip(value))), stillInPaths, specs));
    }
    return Failure(Unsupported(raw));
  }

  /** The parser as written: one pass over the lines with the four variables updated in
      place and the entry flushed at each new entry and at the end. */
  method ParseSourcesFile(text: string) returns (r: Result<seq<SourceSpec>, SourcesError>)
    ensures r == ParseSources(text)
  {
    var lines := SplitLines(text);
    if lines == [] {
      return Failure(EmptyFile);
    }
    var specs: seq<SourceSpec> := [];
    var inSources := false;
    var current: Option<Entry> := None;
    var inPaths := false;
    var i := 0;
    while i < |lines|
      invariant 0 <= i <= |lines|
      invariant Fold(Step, Start, lines[..i]) == Success(Parser(inSources, current, inPaths, specs))
    {
      var raw := lines[i];
      ghost var before := Parser(inSources, current, inPaths, specs);
      assert lines[..i + 1][..i] == lines[..i];
      assert Fold(Step, Start, lines[..i + 1]) == Step(before, raw);
      var line := Content(raw);
      if line != "" {
        if !inSources {
          if Strip(line) != "sources:" {
            FoldPrefixFails(Step, Start, lines, i + 1);
            return Failure(ExpectedSources);
          }
          inSources := true;
        } else {
          var next := ReadListLine(current, inPaths, specs, line, raw);
          if next.Failure? {
            FoldPrefixFails(Step, Start, lines, i + 1);
            return Failure(next.error);
          }
          current, inPaths, specs := next.value.current, next.value.inPaths, next.value.specs;
        }
      }
      assert Step(before, raw) == Success(Parser(inSources, current, inPaths, specs));
      i := i + 1;
    }
    assert lines[..i] == lines;
    var flushed := Flush(current, specs);
    if flushed.Failure? {
      return Failure(flushed.error);
    }
    specs := flushed.value;
    if specs == [] {
      return Failure(NoSources);
    }
    r := Success(specs);
  }

  // ---------------------------------------------------------------------------------------
  // Properties of the parse

  /** A line whose content, once its comment is cut off, is empty. */
  predicate Blank(raw: string) {
    Content(raw) == ""
  }

  /** Blank lines leave the parser's variables as they are. */
  lemma {:induction false} FoldBlanks(p: Parser, blanks: seq<string>)
    requires forall k :: 0 <= k < |blanks| ==> Blank(blanks[k])
    ensures Fold(Step, p, blanks) == Success(p)
    decreases |blanks|
  {
    if blanks != [] {
      FoldBlanks(p, blanks[..|blanks| - 1]);
    }
  }

  /** A blank line in the middle of the loop leaves its outcome as it was. */
  lemma FoldSkipsBlank(p: Parser, a: seq<string>, c: string, b: seq<string>)
    requires Blank(c)
    ensures Fold(Step, p, a + [c] + b) == Fold(Step, p, a + b)
  {
    FoldConcat(Step, p, a, [c] + b);
    FoldConcat(Step, p, a, b);
    ConcatAssoc(a, [c], b);
    if Fold(Step, p, a).Success? {
      var t := Fold(Step, p, a).value;
      FoldConcat(Step, t, [c], b);
      FoldBlanks(t, [c]);
    }
  }

  /** Inserting a blank or comment-only line anywhere in a non-empty file changes nothing. */
  lemma BlankLineSkipped(a: seq<string>, c: string, b: seq<string>)
    requires Blank(c) && a + b != []
    ensures ParseLines(a + [c] + b) == ParseLines(a + b)
  {
    FoldSkipsBlank(Start, a, c, b);
  }

  /** Everything from the first `#` on is a comment: the parser never sees it. */
  lemma CommentIgnored(raw: string, comment: string)
    requires '#' !in raw
    ensures Content(raw + "#" + comment) == Content(raw)
  {
    IndexOfConcat(raw, "#" + comment, '#');
    assert raw + "#" + comment == raw + ("#" + comment);
  }

  /** The first line with content must strip to `sources:`; otherwise the parse stops there. */
  lemma FirstLineMustBeSources(blanks: seq<string>, first: string, rest: seq<string>)
    requires forall k :: 0 <= k < |blanks| ==> Blank(blanks[k])
    requires !Blank(first) && Strip(Content(first)) != "sources:"
    ensures ParseLines(blanks + [first] + rest) == Failure(ExpectedSources)
  {
    var lines := blanks + [first] + rest;
    FoldBlanks(Start, blanks);
    FoldConcat(Step, Start, blanks, [first] + rest);
    ConcatAssoc(blanks, [first], rest);
    FoldConcat(Step, Start, [first], rest);
    FoldOne(Step, Start, first);
    assert Step(Start, first) == Failure(ExpectedSources);
    assert Fold(Step, Start, lines) == Failure(ExpectedSources);
    ParseStops(lines);
  }

  /** When the loop raises, the parse raises the same error. */
  lemma ParseStops(lines: seq<string>)
    requires lines != [] && Fold(Step, Start, lines).Failure?
    ensures ParseLines(lines) == Failure(Fold(Step, Start, lines).error)
  {
  }

  /** The number of spaces a line is indented by. */
  function Indent(line: string): nat {
    |line| - |LStripSpaces(line)|
  }

  /** The `sources:` line found after blank lines: from then on the parser is inside the
      sources list, with no entry started. */
  lemma {:induction false} HeaderRead(pre: seq<string>, header: string, post: seq<string>)
    requires forall k :: 0 <= k < |pre| ==> Blank(pre[k])
    requires forall k :: 0 <= k < |post| ==> Blank(post[k])
    requires !Blank(header) && Strip(Content(header)) == "sources:"
    ensures Fold(Step, Start, pre + [header] + post) == Success(Parser(true, None, false, []))
  {
    FoldBlanks(Start, pre);
    FoldConcat(Step, Start, pre + [header], post);
    FoldConcat(Step, Start, pre, [header]);
    FoldOne(Step, Start, header);
    FoldBlanks(Parser(true, None, false, []), post);
  }

  /** A file with the `sources:` line but no entry raises "No sources configured". */
  lemma NoSourcesConfigured(pre: seq<string>, header: string, post: seq<string>)
    requires forall k :: 0 <= k < |pre| ==> Blank(pre[k])
    requires forall k :: 0 <= k < |post| ==> Blank(post[k])
    requires !Blank(header) && Strip(Content(header)) == "sources:"
    ensures ParseLines(pre + [header] + post) == Failure(NoSources)
  {
    HeaderRead(pre, header, post);
  }

  /** Before the first `- ` entry line, any other line with content (an indent-4 key, an
      indent-6 path item, anything) raises. */
  lemma ContentBeforeFirstEntry(pre: seq<string>, header: string, post: seq<string>, line: string,
                                rest: seq<string>)
    requires forall k :: 0 <= k < |pre| ==> Blank(pre[k])
    requires forall k :: 0 <= k < |post| ==> Blank(post[k])
    requires !Blank(header) && Strip(Content(header)) == "sources:"
    requires !Blank(line) && !(Indent(Content(line)) == 2 && StartsWith(LStripSpaces(Content(line)), "- "))
    ensures ParseLines(pre + [header] + post + [line] + rest) == Failure(ContentBeforeEntry(line))
  {
    HeaderRead(pre, header, post);
    var head := pre + [header] + post;
    FoldConcat(Step, Start, head, [line] + rest);
    ConcatAssoc(head, [line], rest);
    var p := Parser(true, None, false, []);
    FoldConcat(Step, p, [line], rest);
    FoldOne(Step, p, line);
  }

  /** How a line with content is read inside the sources list, by its indentation: an indent-2
      `- ` line flushes the entry being read and starts a new one outside path mode; every
      other line needs an entry; an indent-4 `paths:` line enters path mode; an indent-6 `- `
      line outside path mode, and any indentation other than 2, 4 or 6, raises; an indent-4
      key other than `paths` leaves path mode. */
  lemma IndentationRules(p: Parser, raw: string)
    requires p.inSources && !Blank(raw)
    ensures var line := Content(raw); var stripped := LStripSpaces(line);
      && (Indent(line) == 2 && StartsWith(stripped, "- ") ==>
            (Flush(p.current, p.specs).Failure? ==> Step(p, raw) == Failure(Flush(p.current, p.specs).error))
            && (Step(p, raw).Success? ==>
                  Step(p, raw).value.current.Some? && !Step(p, raw).value.inPaths
                  && Step(p, raw).value.specs == Flush(p.current, p.specs).value))
      && (!(Indent(line) == 2 && StartsWith(stripped, "- ")) && p.current.None? ==>
            Step(p, raw) == Failure(ContentBeforeEntry(raw)))
      && (p.current.Some? && Indent(line) == 4 && StartsWith(stripped, "paths:") ==>
            Step(p, raw) == Success(p.(inPaths := true)))
      && (p.current.Some? && Indent(line) == 6 && StartsWith(stripped, "- ") && !p.inPaths ==>
            Step(p, raw) == Failure(Unsupported(raw)))
      && (p.current.Some? && Indent(line) == 4 && !StartsWith(stripped, "paths:")
          && Strip(Partition(stripped, ':').0) != "paths" && Step(p, raw).Success? ==>
            !Step(p, raw).value.inPaths && Step(p, raw).value.specs == p.specs)
      && (p.current.Some? && Indent(line) != 2 && Indent(line) != 4 && Indent(line) != 6 ==>
            Step(p, raw) == Failure(Unsupported(raw)))
  {
  }

  /** Every source the parse returns has a repository, a ref and at least one path, none of
      them empty. */
  predicate ValidSpec(s: SourceSpec) {
    s.repo != "" && s.ref != "" && s.paths != [] && forall k :: 0 <= k < |s.paths| ==> s.paths[k] != ""
  }

  predicate AllValid(specs: seq<SourceSpec>) {
    forall k :: 0 <= k < |specs| ==> ValidSpec(specs[k])
  }

  lemma FlushKeepsValid(current: Option<Entry>, specs: seq<SourceSpec>)
    requires AllValid(specs) && Flush(current, specs).Success?
    ensures AllValid(Flush(current, specs).value)
    ensures specs <= Flush(current, specs).value
  {
  }

  lemma StepKeepsValid(p: Parser, raw: string)
    requires AllValid(p.specs) && Step(p, raw).Success?
    ensures AllValid(Step(p, raw).value.specs)
    ensures p.specs <= Step(p, raw).value.specs
  {
    if p.inSources && !Blank(raw) {
      var line := Content(raw);
      var stripped := LStripSpaces(line);
      if Indent(line) == 2 && StartsWith(stripped, "- ") {
        FlushKeepsValid(p.current, p.specs);
      }
    }
  }

  /** Sources are only ever appended: the ones already read stay, in order, and all are valid. */
  lemma {:induction false} FoldKeepsValid(p: Parser, lines: seq<string>)
    requires AllValid(p.specs) && Fold(Step, p, lines).Success?
    ensures AllValid(Fold(Step, p, lines).value.specs)
    ensures p.specs <= Fold(Step, p, lines).value.specs
    decreases |lines|
  {
    if lines != [] {
      var n := |lines| - 1;
      FoldKeepsValid(p, lines[..n]);
      StepKeepsValid(Fold(Step, p, lines[..n]).value, lines[n]);
    }
  }

  /** A successful parse returns at least one source, each with a non-empty repository, ref
      and path list of non-empty paths. */
  lemma ParsedSourcesValid(lines: seq<string>)
    requires ParseLines(lines).Success?
    ensures ParseLines(lines).value != [] && AllValid(ParseLines(lines).value)
  {
    FoldKeepsValid(Start, lines);
    var p := Fold(Step, Start, lines).value;
    FlushKeepsValid(p.current, p.specs);
  }

  /** The errors a line can raise are neither of the two the file as a whole raises. */
  lemma {:induction false} FoldErrors(p: Parser, lines: seq<string>)
    requires Fold(Step, p, lines).Failure?
    ensures Fold(Step, p, lines).error != EmptyFile && Fold(Step, p, lines).error != NoSources
    decreases |lines|
  {
    var n := |lines| - 1;
    if Fold(Step, p, lines[..n]).Failure? {
      FoldErrors(p, lines[..n]);
    } else {
      StepErrors(Fold(Step, p, lines[..n]).value, lines[n]);
    }
  }

  lemma StepErrors(p: Parser, raw: string)
    requires Step(p, raw).Failure?
    ensures Step(p, raw).error != EmptyFile && Step(p, raw).error != NoSources
  {
  }

  /** "sources file is empty" is raised exactly for an empty file. */
  lemma EmptyFileRejected(text: string)
    ensures ParseSources(text) == Failure(EmptyFile) <==> text == ""
  {
    var lines := SplitLines(text);
    if lines != [] && Fold(Step, Start, lines).Failure? {
      FoldErrors(Start, lines);
    }
  }

  // ---------------------------------------------------------------------------------------
  // The documented layout reads back as the sources it lists

  function Spaces(n: nat): (r: string)
    ensures |r| == n && forall k :: 0 <= k < n ==> r[k] == ' '
  {
    if n == 0 then "" else " " + Spaces(n - 1)
  }

  /** A value written on a line reads back as itself: it is not empty, holds no comment mark
      and has no whitespace at either end. */
  predicate Plain(v: string) {
    v != "" && '#' !in v && !IsSpace(v[0]) && !IsSpace(v[|v| - 1])
  }

  /** A source in the documented layout reads back as itself. */
  predicate PlainSpec(s: SourceSpec) {
    Plain(s.repo) && Plain(s.ref) && s.paths != [] && forall k :: 0 <= k < |s.paths| ==> Plain(s.paths[k])
  }

  function RepoLine(repo: string): string { Spaces(2) + "- repo: " + repo }
  function RefLine(ref: string): string { Spaces(4) + "ref: " + ref }
  function PathsLine(): string { Spaces(4) + "paths:" }
  function PathLine(path: string): string { Spaces(6) + "- " + path }

  function PathLines(paths: seq<string>): seq<string> {
    if paths == [] then [] else PathLines(paths[..|paths| - 1]) + [PathLine(paths[|paths| - 1])]
  }

  function EntryLines(s: SourceSpec): seq<string> {
    [RepoLine(s.repo), RefLine(s.ref), PathsLine()] + PathLines(s.paths)
  }

  /** The sources file in the documented layout: the `sources:` key, then per source its
      `- repo:` line, its `ref:` line and its `paths:` list. */
  function Render(specs: seq<SourceSpec>): (r: seq<string>)
    ensures r != []
  {
    if specs == [] then ["sources:"] else Render(specs[..|specs| - 1]) + EntryLines(specs[|specs| - 1])
  }

  /** The entry the parser holds once it has read one source's lines. */
  function EntryOf(s: SourceSpec): Entry {
    Entry(Some(s.repo), Some(s.ref), PathList(s.paths))
  }

  lemma {:induction false} SpacesThen(n: nat, body: string)
    requires body != [] && body[0] != ' '
    ensures LStripSpaces(Spaces(n) + body) == body
  {
    if n > 0 {
      assert (Spaces(n) + body)[1..] == Spaces(n - 1) + body;
      SpacesThen(n - 1, body);
    }
  }

  /** An indented line whose text holds no comment mark and ends in a non-space character is
      read whole, at its indentation. */
  lemma LineBody(n: nat, body: string)
    requires body != [] && body[0] != ' ' && '#' !in body && !IsSpace(body[|body| - 1])
    ensures Content(Spaces(n) + body) == Spaces(n) + body
    ensures LStripSpaces(Spaces(n) + body) == body && Indent(Spaces(n) + body) == n
  {
    var s := Spaces(n) + body;
    assert '#' !in s by {
      forall k | 0 <= k < |s| ensures s[k] != '#' {
        if k >= n {
          assert s[k] == body[k - n];
        }
      }
    }
    assert s[|s| - 1] == body[|body| - 1];
    SpacesThen(n, body);
  }

  /** A string without whitespace at either end is left alone by `strip()`. */
  lemma StripUnpadded(v: string)
    requires v != [] && !IsSpace(v[0]) && !IsSpace(v[|v| - 1])
    ensures Strip(v) == v
  {
    assert RStrip(v) == v;
  }

  lemma StripPlain(v: string)
    requires Plain(v)
    ensures Strip(" " + v) == v && Strip(v) == v
  {
    var w := " " + v;
    assert w[|w| - 1] == v[|v| - 1];
    assert RStrip(w) == w;
    assert w[1..] == v;
    assert LStrip(w) == LStrip(v);
    StripUnpadded(v);
  }

  /** `key + ": " + v` partitions into the key and the padded value. */
  lemma PartitionKey(key: string, v: string)
    requires ':' !in key
    ensures Partition(key + ": " + v, ':') == (key, true, " " + v)
  {
    var s := key + ": " + v;
    assert s == key + (": " + v);
    IndexOfConcat(key, ": " + v, ':');
    assert s[..|key|] == key;
    assert s[|key| + 1..] == " " + v;
  }

  lemma KeyLiterals()
    ensures Strip("repo") == "repo" && Strip("ref") == "ref" && Strip("sources:") == "sources:"
    ensures ':' !in "repo" && ':' !in "ref" && '#' !in "sources:"
  {
    StripUnpadded("repo");
    StripUnpadded("ref");
    StripUnpadded("sources:");
  }

  /** The `sources:` line opens the list. */
  lemma HeaderLine()
    ensures Step(Start, "sources:") == Success(Parser(true, None, false, []))
  {
    KeyLiterals();
    assert Content("sources:") == "sources:";
  }

  /** A line with content inside the list is read by its indentation. */
  lemma StepListLine(p: Parser, raw: string)
    requires p.inSources && !Blank(raw)
    ensures Step(p, raw) == ListLine(p, Content(raw), raw)
  {
  }

  /** A key/value line `key: v` sets `key`; a key other than `paths` leaves path mode. */
  lemma KeyValueKey(p: Parser, key: string, v: string, raw: string)
    requires p.current.Some? && ':' !in key && Strip(key) == key && Plain(v)
    ensures KeyValue(p, key + ": " + v, raw)
      == Success(p.(current := Some(SetKey(p.current.value, key, v)),
                    inPaths := if key != "paths" then false else p.inPaths))
  {
    PartitionKey(key, v);
    StripPlain(v);
  }

  /** An entry line `- key: v` flushes the previous entry and starts one holding `key`. */
  lemma StartEntryKey(p: Parser, key: string, v: string, raw: string)
    requires ':' !in key && Strip(key) == key && Plain(v) && Flush(p.current, p.specs).Success?
    ensures StartEntry(p, key + ": " + v, raw)
      == Success(Parser(p.inSources, Some(SetKey(Entry(None, None, PathList([])), key, v)), false,
                        Flush(p.current, p.specs).value))
  {
    PartitionKey(key, v);
    StripPlain(v);
  }

  lemma RepoLineStep(p: Parser, v: string)
    requires p.inSources && Plain(v) && Flush(p.current, p.specs).Success?
    ensures Step(p, RepoLine(v))
      == Success(Parser(true, Some(Entry(Some(v), None, PathList([]))), false, Flush(p.current, p.specs).value))
  {
    var body := "- repo: " + v;
    LineBody(2, body);
    assert RepoLine(v) == Spaces(2) + body;
    assert body[..2] == "- " && body[2..] == "repo" + ": " + v;
    KeyLiterals();
    StepListLine(p, RepoLine(v));
    assert Step(p, RepoLine(v)) == StartEntry(p, "repo" + ": " + v, RepoLine(v));
    StartEntryKey(p, "repo", v, RepoLine(v));
  }

  lemma RefLineStep(p: Parser, v: string)
    requires p.inSources && p.current.Some? && Plain(v)
    ensures Step(p, RefLine(v)) == Success(p.(current := Some(p.current.value.(ref := Some(v))), inPaths := false))
  {
    var body := "ref" + ": " + v;
    LineBody(4, body);
    assert RefLine(v) == Spaces(4) + body;
    assert !StartsWith(body, "paths:") by {
      assert body[0] == 'r';
    }
    StepListLine(p, RefLine(v));
    assert ListLine(p, Spaces(4) + body, RefLine(v)) == KeyValue(p, body, RefLine(v));
    KeyLiterals();
    KeyValueKey(p, "ref", v, RefLine(v));
  }

  lemma PathsLineStep(p: Parser)
    requires p.inSources && p.current.Some?
    ensures Step(p, PathsLine()) == Success(p.(inPaths := true))
  {
    LineBody(4, "paths:");
    StepListLine(p, PathsLine());
  }

  lemma PathLineStep(p: Parser, v: string)
    requires p.inSources && p.current.Some? && p.current.value.paths.PathList? && p.inPaths && Plain(v)
    ensures Step(p, PathLine(v))
      == Success(p.(current := Some(p.current.value.(paths := PathList(p.current.value.paths.items + [v])))))
  {
    var body := "- " + v;
    LineBody(6, body);
    assert PathLine(v) == Spaces(6) + body;
    assert body[2..] == v;
    StripPlain(v);
    StepListLine(p, PathLine(v));
    assert ListLine(p, Spaces(6) + body, PathLine(v)) == AddPath(p, v);
  }

  /** The path items are appended in the order they are written. */
  lemma {:induction false} PathLinesRead(p: Parser, paths: seq<string>)
    requires p.inSources && p.current.Some? && p.current.value.paths.PathList? && p.inPaths
    requires forall k :: 0 <= k < |paths| ==> Plain(paths[k])
    ensures Fold(Step, p, PathLines(paths))
      == Success(p.(current := Some(p.current.value.(paths := PathList(p.current.value.paths.items + paths)))))
    decreases |paths|
  {
    var e := p.current.value;
    if paths == [] {
      assert e.paths.items + paths == e.paths.items;
    } else {
      var n := |paths| - 1;
      var init := paths[..n];
      PathLinesRead(p, init);
      var q := p.(current := Some(e.(paths := PathList(e.paths.items + init))));
      FoldConcat(Step, p, PathLines(init), [PathLine(paths[n])]);
      FoldOne(Step, q, PathLine(paths[n]));
      PathLineStep(q, paths[n]);
      assert e.paths.items + init + [paths[n]] == e.paths.items + paths;
    }
  }

  /** One source's lines, read after the previous entry, flush it and leave the new one
      pending, in path mode. */
  lemma EntryRead(p: Parser, s: SourceSpec)
    requires p.inSources && Flush(p.current, p.specs).Success? && PlainSpec(s)
    ensures Fold(Step, p, EntryLines(s)) == Success(Parser(true, Some(EntryOf(s)), true, Flush(p.current, p.specs).value))
  {
    var specs := Flush(p.current, p.specs).value;
    var p1 := Parser(true, Some(Entry(Some(s.repo), None, PathList([]))), false, specs);
    var p2 := Parser(true, Some(Entry(Some(s.repo), Some(s.ref), PathList([]))), false, specs);
    var p3 := Parser(true, Some(Entry(Some(s.repo), Some(s.ref), PathList([]))), true, specs);
    RepoLineStep(p, s.repo);
    RefLineStep(p1, s.ref);
    PathsLineStep(p2);
    FoldThree(Step, p, RepoLine(s.repo), RefLine(s.ref), PathsLine());
    FoldConcat(Step, p, [RepoLine(s.repo), RefLine(s.ref), PathsLine()], PathLines(s.paths));
    PathLinesRead(p3, s.paths);
    assert [] + s.paths == s.paths;
  }

  /** A flushed source in the documented layout is appended as written. */
  lemma FlushEntryOf(s: SourceSpec, specs: seq<SourceSpec>)
    requires PlainSpec(s)
    ensures Flush(Some(EntryOf(s)), specs) == Success(specs + [s])
  {
  }

  /** After the rendered file, every source but the last has been flushed, in order. */
  lemma {:induction false} RenderRead(specs: seq<SourceSpec>)
    requires specs != [] && forall k :: 0 <= k < |specs| ==> PlainSpec(specs[k])
    ensures Fold(Step, Start, Render(specs))
      == Success(Parser(true, Some(EntryOf(specs[|specs| - 1])), true, specs[..|specs| - 1]))
    decreases |specs|
  {
    var n := |specs| - 1;
    var init := specs[..n];
    FoldConcat(Step, Start, Render(init), EntryLines(specs[n]));
    if n == 0 {
      FoldOne(Step, Start, "sources:");
      HeaderLine();
      EntryRead(Parser(true, None, false, []), specs[n]);
    } else {
      RenderRead(init);
      var q := Parser(true, Some(EntryOf(init[n - 1])), true, init[..n - 1]);
      FlushEntryOf(init[n - 1], init[..n - 1]);
      EntryRead(q, specs[n]);
      Sorting.FrontLast(init);
    }
  }

  /** Lines that leave one valid entry pending parse to the sources flushed before it and
      then that entry. */
  lemma ParsePending(lines: seq<string>, last: SourceSpec, prev: seq<SourceSpec>)
    requires lines != [] && PlainSpec(last)
    requires Fold(Step, Start, lines) == Success(Parser(true, Some(EntryOf(last)), true, prev))
    ensures ParseLines(lines) == Success(prev + [last])
  {
    FlushEntryOf(last, prev);
  }

  /** A sources file written in the documented layout parses to exactly the sources it lists,
      in the order listed, each with its paths in the order listed. */
  lemma RenderRoundTrip(specs: seq<SourceSpec>)
    requires specs != [] && forall k :: 0 <= k < |specs| ==> PlainSpec(specs[k])
    ensures ParseLines(Render(specs)) == Success(specs)
  {
    RenderRead(specs);
    var n := |specs| - 1;
    ParsePending(Render(specs), specs[n], specs[..n]);
    Sorting.FrontLast(specs);
  }
}
