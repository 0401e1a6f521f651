/** What the external tool reports and what the editor is given: lint items,
    diagnostics, documents and process invocations, shared by the three
    providers. */
module Lint {
  import opened Wrappers

  /** One finding of hlint's JSON output; coordinates are 1-based. */
  datatype LintItem = LintItem(
    moduleName: string,
    decl: string,
    severity: string,
    hint: string,
    file: string,
    startLine: int,
    startColumn: int,
    endLine: int,
    endColumn: int,
    from: string,
    to: string,
    note: seq<string>)

  /** A 0-based position and range of the editor. */
  datatype Position = Position(line: int, character: int)
  datatype Range = Range(start: Position, end: Position)

  /** The two diagnostic severities the providers produce. */
  datatype Severity = Error | Warning

  datatype Diagnostic = Diagnostic(range: Range, message: string, severity: Severity)

  /** The parts of a text document the providers read. */
  datatype Document = Document(uri: string, languageId: string, fileName: string, text: string)

  /** The error object of a failed spawn: its `code` and its `message`
      (an absent message is the empty string, which is just as falsy). */
  datatype SpawnFailure = SpawnFailure(code: string, message: string)

  /** What `cp.spawn(executable, args, options)` is called with, and the text
      written to the child's stdin before it is closed (None: stdin untouched). */
  datatype Invocation = Invocation(executable: string, args: seq<string>, cwd: Option<string>, stdin: Option<string>)

  /** `JSON.parse(text)` of the tool's output: the array's entries in order,
      a null entry as `None`; `Throws` when the text is not such an array. */
  type Parser = string -> Result<seq<Option<LintItem>>>

  /** `options`: the working directory is the workspace root when it is set
      and not empty. */
  function SpawnCwd(rootPath: Option<string>): (cwd: Option<string>)
    ensures cwd.Some? <==> rootPath.Some? && rootPath.value != ""
    ensures cwd.Some? ==> cwd == rootPath
  {
    if rootPath.Some? && rootPath.value != "" then rootPath else None
  }

  /** `items.forEach(item => { if (item) diagnostics.push(f(item)); })`:
      the image of every present item, in order. */
  function MapPresent(items: seq<Option<LintItem>>, f: LintItem -> Diagnostic): (r: seq<Diagnostic>)
    ensures |r| <= |items|
    ensures forall d :: d in r ==> exists k :: 0 <= k < |items| && items[k].Some? && d == f(items[k].value)
  {
    if items == [] then []
    else
      var last := items[|items| - 1];
      MapPresent(items[..|items| - 1], f) + (if last.Some? then [f(last.value)] else [])
  }

  lemma {:induction false} MapPresentAppend(a: seq<Option<LintItem>>, b: seq<Option<LintItem>>, f: LintItem -> Diagnostic)
    ensures MapPresent(a + b, f) == MapPresent(a, f) + MapPresent(b, f)
    decreases |b|
  {
    if b == [] {
      assert a + b == a;
    } else {
      assert (a + b)[..|a + b| - 1] == a + b[..|b| - 1];
      assert (a + b)[|a + b| - 1] == b[|b| - 1];
      MapPresentAppend(a, b[..|b| - 1], f);
    }
  }

  /** Null entries are skipped, every other entry gives exactly one
      diagnostic, and the order of the entries is kept. */
  lemma {:induction false} MapPresentSkipsNulls(items: seq<Option<LintItem>>, f: LintItem -> Diagnostic)
    ensures |MapPresent(items, f)| <= |items|
    ensures (forall i :: 0 <= i < |items| ==> items[i].None?) ==> MapPresent(items, f) == []
    ensures (forall i :: 0 <= i < |items| ==> items[i].Some?) ==>
              |MapPresent(items, f)| == |items| &&
              forall i :: 0 <= i < |items| ==> MapPresent(items, f)[i] == f(items[i].value)
  {
    if items != [] {
      var init := items[..|items| - 1];
      MapPresentSkipsNulls(init, f);
      assert forall i :: 0 <= i < |init| ==> init[i] == items[i];
    }
  }

  /** An item's diagnostic comes after those of the items before it. */
  lemma MapPresentCons(x: LintItem, items: seq<Option<LintItem>>, f: LintItem -> Diagnostic)
    ensures MapPresent([Some(x)] + items, f) == [f(x)] + MapPresent(items, f)
    ensures MapPresent([None] + items, f) == MapPresent(items, f)
  {
    MapPresentAppend([Some(x)], items, f);
    MapPresentAppend([None], items, f);
    var none: Option<LintItem> := None;
    assert [Some(x)][..0] == [] && [none][..0] == [];
  }

  /** The `forEach`/`push` loop that fills a provider's `diagnostics`. */
  method PushPresent(items: seq<Option<LintItem>>, f: LintItem -> Diagnostic) returns (diagnostics: seq<Diagnostic>)
    ensures diagnostics == MapPresent(items, f)
  {
    diagnostics := [];
    for i := 0 to |items|
      invariant diagnostics == MapPresent(items[..i], f)
    {
      assert items[..i + 1][..i] == items[..i];
      if items[i].Some? {
        diagnostics := diagnostics + [f(items[i].value)];
      }
    }
    assert items[..|items|] == items;
  }
}
