/** The Haskell subclass of the generic linting provider
    (`src/features/haskellLinter.ts`): its defaults, and its `processAll`,
    which parses the joined decoder log as hlint's JSON. */
module HaskellLinter {
  import opened Wrappers
  import opened Text
  import opened Lint
  import opened LineSplit
  import opened LineDecoding
  import opened LintingProviders

  const LanguageId: string := "haskell"

  const Defaults: LinterOptions :=
    LinterOptions("hlint", ["--json"], ["--json", "-"], "onType", "all", [])

  /** `_getRange`: from hlint's 1-based coordinates to the editor's 0-based ones. */
  function GetRange(item: LintItem): (r: Range)
    ensures r.start.line + 1 == item.startLine && r.start.character + 1 == item.startColumn
    ensures r.end.line + 1 == item.endLine && r.end.character + 1 == item.endColumn
  {
    Range(Position(item.startLine - 1, item.startColumn - 1), Position(item.endLine - 1, item.endColumn - 1))
  }

  /** `_asDiagnosticSeverity`: only "warning", in any case, is a warning. */
  function AsDiagnosticSeverity(level: string): (s: Severity)
    ensures s == Warning <==> Lower(level) == "warning"
  {
    if Lower(level) == "warning" then Warning else Error
  }

  /** `_asDiagnostic`: every item becomes a message naming the hint, the
      code found and its replacement; with `ignoreSeverity` every diagnostic
      is a warning. */
  function AsDiagnostic(item: LintItem, ignoreSeverity: bool): (d: Diagnostic)
    ensures d.range == GetRange(item)
    ensures d.message == item.hint + ". Replace: " + item.from + " ==> " + item.to
    ensures ignoreSeverity ==> d.severity == Warning
    ensures !ignoreSeverity ==> d.severity == AsDiagnosticSeverity(item.severity)
  {
    var severity := if ignoreSeverity then Warning else AsDiagnosticSeverity(item.severity);
    Diagnostic(GetRange(item), item.hint + ". Replace: " + item.from + " ==> " + item.to, severity)
  }

  /** A suggestion, which the hlint provider reports as a warning, is an
      error here unless severities are ignored. */
  lemma SuggestionIsError(item: LintItem)
    requires Lower(item.severity) == "suggestion"
    ensures AsDiagnostic(item, false).severity == Error
    ensures AsDiagnostic(item, true).severity == Warning
  {
    assert "suggestion"[0] != "warning"[0];
  }

  /** `processAll`: the log joined with `join('')` is parsed; every present
      item gives one diagnostic, in order. */
  function ProcessAllSpec(lines: seq<Option<string>>, parse: Parser, ignoreSeverity: bool): (r: Result<seq<Diagnostic>>)
    ensures r.Throws? <==> parse(JoinLog(lines)).Throws?
    ensures r.Ok? ==> r.value == MapPresent(parse(JoinLog(lines)).value, item => AsDiagnostic(item, ignoreSeverity))
  {
    var parsed := parse(JoinLog(lines));
    if parsed.Throws? then Throws
    else Ok(MapPresent(parsed.value, item => AsDiagnostic(item, ignoreSeverity)))
  }

  method ProcessAll(lines: seq<Option<string>>, parse: Parser, ignoreSeverity: bool) returns (r: Result<seq<Diagnostic>>)
    ensures r == ProcessAllSpec(lines, parse, ignoreSeverity)
  {
    var parsed := parse(JoinLog(lines));
    if parsed.Throws? {
      return Throws;
    }
    var diagnostics := PushPresent(parsed.value, item => AsDiagnostic(item, ignoreSeverity));
    r := Ok(diagnostics);
  }

  /** With every setting unset, activation leaves the subclass's defaults in
      the fields: hlint with `--json`, run on type, output parsed all at once. */
  lemma DefaultSettings(docs: seq<Document>)
    ensures var s := Activated(LanguageId, Defaults, Unset, docs);
            s.executable == "hlint" && s.fileArgs == ["--json"] && s.bufferArgs == ["--json", "-"] &&
            s.extraArgs == [] && s.runTrigger == OnType && s.processTrigger == All && !s.executableNotFound
  {
    var c := Configured(Constructed, Defaults, Unset);
    assert c.runTrigger == OnType && c.processTrigger == All;
    ActivatedIsOneLoad(LanguageId, Defaults, Unset, docs);
    assert Activated(LanguageId, Defaults, Unset, docs) == TriggeredAll(c, LanguageId, docs);
  }

  /** With no settings, hlint is run on the buffer through stdin after every change. */
  lemma DefaultRun(docs: seq<Document>, doc: Document, rootPath: Option<string>)
    ensures var s := Activated(LanguageId, Defaults, Unset, docs);
            s.processTrigger == All &&
            PlannedInvocation(s, doc, rootPath) == Invocation("hlint", ["--json", "-"], SpawnCwd(rootPath), Some(doc.text))
  {
    ActivatedIsOneLoad(LanguageId, Defaults, Unset, docs);
    var s := Activated(LanguageId, Defaults, Unset, docs);
    assert s.runTrigger == OnType && s.bufferArgs == ["--json", "-"] && s.extraArgs == [];
    assert ["--json", "-"] + [] == ["--json", "-"];
  }

  /** What is parsed is the plain output exactly when no write leaves a
      partial line pending; an output of "[]" with no final line break is
      parsed as "[][]". */
  lemma ParsedText(chunks: seq<string>, parse: Parser, ignoreSeverity: bool)
    ensures (forall k :: 1 <= k <= |chunks| ==> FeedAll(chunks[..k]).remaining == None) ==>
              ProcessAllSpec(LogAfterEnd(chunks), parse, ignoreSeverity).Throws? == parse(Join(chunks)).Throws?
    ensures ProcessAllSpec(LogAfterEnd(["[]"]), parse, ignoreSeverity).Throws? == parse("[][]").Throws?
  {
    LogJoinIsConcatenation(chunks);
    OutputWithoutFinalBreakIsDoubled();
  }

  /** The concrete provider: the generic provider's state with this
      subclass's language, defaults and `processAll`. */
  class HaskellLintingProvider {
    const provider: LintingProvider

    /** `new HaskellLintingProvider()` and `activate`. */
    constructor(c: LinterSettings, openDocs: seq<Document>)
      ensures fresh(provider)
      ensures provider.languageId == LanguageId && provider.defaultOptions == Defaults && !provider.ignoreSeverity
      ensures provider.State() == Activated(LanguageId, Defaults, c, openDocs)
    {
      provider := new LintingProvider(LanguageId, Defaults, c, openDocs);
    }

    /** The stdout listeners of a run: every chunk is written to the
        logging decoder, `end()` is called, and the log is processed. */
    method StdoutEnd(uri: string, chunks: seq<string>, parse: Parser)
      modifies provider
      ensures provider.State() ==
                Finished(old(provider.State()), uri, LogAfterEnd(chunks),
                         lines => ProcessAllSpec(lines, parse, provider.ignoreSeverity))
    {
      var lines := AssembleLog(chunks);
      if provider.processTrigger == Line {
        provider.PublishLines(uri, lines);
      } else {
        var processed := ProcessAll(lines, parse, provider.ignoreSeverity);
        provider.PublishAll(uri, processed);
      }
    }
  }
}
