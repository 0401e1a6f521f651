/** The hlint provider of `src/features/hlintProvider.ts`: lint items become
    diagnostics carrying the text a quick fix needs, the quick fix is read
    back out of the diagnostic, and the provider keeps its configuration,
    its per-document delayers and the diagnostics it published. */
module HlintProvider {
  import opened Wrappers
  import opened Text
  import opened Lint
  import opened LineSplit
  import opened LineDecoding
  import opened Logging

  // ---- Configuration values ----

  /** When hlint runs: on save, on every change, or never. */
  datatype RunTrigger = OnSave | OnType | Never

  /** `RunTrigger.from`: any string other than the two names means never. */
  function RunTriggerFrom(value: string): (t: RunTrigger)
    ensures t == OnSave <==> value == "onSave"
    ensures t == OnType <==> value == "onType"
    ensures t == Never <==> value != "onSave" && value != "onType"
  {
    if value == "onSave" then OnSave
    else if value == "onType" then OnType
    else Never
  }

  const DefaultExecutable: string := "hlint"
  const DefaultRun: string := "onType"
  const DefaultLogLevel: string := "error"
  const FileArgs: seq<string> := ["--json"]
  const BufferArgs: seq<string> := ["-", "--json"]
  const SuggestionPrefix: string := "Hlint Suggestion: "
  const ErrorPrefix: string := "Hlint Error: "
  const Separator: string := ". " + ReplaceWith
  const CommandId: string := "haskell.runCodeAction"
  const NotFoundMessage: string :=
    "Cannot hlint the haskell file. The hlint program was not found. Use the 'haskell.hlint.executablePath' setting to configure the location of 'hlint'"

  // ---- From lint items to diagnostics ----

  /** `_getRange`: hlint counts lines and columns from 1, the editor from 0. */
  function GetRange(item: LintItem): (r: Range)
    ensures r.start.line + 1 == item.startLine && r.start.character + 1 == item.startColumn
    ensures r.end.line + 1 == item.endLine && r.end.character + 1 == item.endColumn
  {
    Range(Position(item.startLine - 1, item.startColumn - 1), Position(item.endLine - 1, item.endColumn - 1))
  }

  /** `_asDiagnosticSeverity`: suggestions and warnings, in any case, are
      warnings; every other severity is an error. */
  function AsDiagnosticSeverity(level: string): (s: Severity)
    ensures s == Warning <==> Lower(level) == "suggestion" || Lower(level) == "warning"
  {
    var l := Lower(level);
    if l == "suggestion" || l == "warning" then Warning else Error
  }

  /** The hint of a parse failure is reported as an error message with no
      fix; every other hint as a suggestion ending in its replacement. */
  predicate IsParseError(item: LintItem) {
    Contains(Lower(item.hint), "parse error")
  }

  function AsDiagnostic(item: LintItem): (d: Diagnostic)
    ensures d.range == GetRange(item) && d.severity == AsDiagnosticSeverity(item.severity)
    ensures IsParseError(item) ==> d.message == ErrorPrefix + item.hint
    ensures !IsParseError(item) ==> d.message == SuggestionPrefix + item.hint + Separator + item.to
  {
    var message :=
      if !IsParseError(item) then SuggestionPrefix + item.hint + Separator + item.to
      else ErrorPrefix + item.hint;
    Diagnostic(GetRange(item), message, AsDiagnosticSeverity(item.severity))
  }

  /** The severities and ranges hlint reports, as the editor sees them. */
  lemma SeverityExamples()
    ensures AsDiagnosticSeverity("Warning") == Warning
    ensures AsDiagnosticSeverity("SUGGESTION") == Warning
    ensures AsDiagnosticSeverity("Error") == Error
    ensures AsDiagnosticSeverity("Ignore") == Error
  {
    assert Lower("Warning") == "warning";
    assert Lower("SUGGESTION") == "suggestion";
    assert Lower("Error") == "error";
    assert Lower("Ignore") == "ignore";
  }

  /** A pattern whose first character does not occur in `s` does not occur. */
  lemma {:induction false} MissingFirstChar(s: string, pat: string)
    requires |pat| > 0 && pat[0] !in s
    ensures !Contains(s, pat)
  {
    forall j | 0 <= j < |s|
      ensures s[j] != pat[0]
    {
      assert s[j] in s;
    }
  }

  // ---- Code actions ----

  /** The command of a quick fix: its title, its id, and the arguments
      `[replacement, uri, range, message]` it is run with. */
  datatype Command = Command(title: string, command: string, replacement: string, uri: string, range: Range, message: string)

  /** One slot of the array `provideCodeActions` returns: `null` for a
      diagnostic that is not a suggestion, `undefined` for a suggestion whose
      replacement is empty, or a command. */
  datatype CodeAction = NotSuggestion | NoReplacement | Run(cmd: Command)

  /** The body of the `map` callback for one diagnostic; `Throws` is the
      TypeError of reading group 1 when the expression does not match. */
  function CodeActionFor(uri: string, d: Diagnostic): (r: Result<CodeAction>)
    ensures r == Ok(NotSuggestion) <==> IndexOf(d.message, SuggestionPrefix) != 0
    ensures r.Throws? <==> IndexOf(d.message, SuggestionPrefix) == 0 && !Contains(d.message, ReplaceWith)
    ensures r == Ok(NoReplacement) <==>
              IndexOf(d.message, SuggestionPrefix) == 0 && ReplaceWithCapture(d.message) == Some("")
    ensures r.Ok? && r.value.Run? ==>
              var c := r.value.cmd;
              c.command == CommandId && c.uri == uri && c.range == d.range && c.message == d.message &&
              d.message == SuggestionPrefix + c.title &&
              c.replacement != "" && ReplaceWithCapture(d.message) == Some(c.replacement)
  {
    if IndexOf(d.message, SuggestionPrefix) == 0 then
      IndexOfZero(d.message, SuggestionPrefix);
      ReplaceLeadingOccurrence(d.message, SuggestionPrefix);
      var m := ReplaceWithCapture(d.message);
      if m.None? then Throws
      else if m.value == "" then Ok(NoReplacement)
      else Ok(Run(Command(ReplaceFirst(d.message, SuggestionPrefix, ""), CommandId, m.value, uri, d.range, d.message)))
    else Ok(NotSuggestion)
  }

  /** `xs.map(f).reverse()` where a callback may throw: the whole call
      throws when one callback does. */
  function MapReversed<X, Y>(xs: seq<X>, f: X -> Result<Y>): (r: Result<seq<Y>>)
    ensures r.Ok? <==> forall i :: 0 <= i < |xs| ==> f(xs[i]).Ok?
    ensures r.Ok? ==> (|r.value| == |xs| &&
              forall i :: 0 <= i < |xs| ==> r.value[i] == f(xs[|xs| - 1 - i]).value)
  {
    if xs == [] then Ok([])
    else
      var first := f(xs[0]);
      var rest := MapReversed(xs[1..], f);
      if first.Throws? || rest.Throws? then
        assert rest.Throws? ==> exists i :: 0 <= i < |xs| - 1 && f(xs[1..][i]).Throws?;
        Throws
      else
        Ok(rest.value + [first.value])
  }

  /** `provideCodeActions`: one slot per diagnostic, in reverse order; the
      whole call throws when one diagnostic's callback throws. */
  function ProvideCodeActions(uri: string, ds: seq<Diagnostic>): (r: Result<seq<CodeAction>>)
    ensures r.Ok? <==> forall i :: 0 <= i < |ds| ==> CodeActionFor(uri, ds[i]).Ok?
    ensures r.Ok? ==> (|r.value| == |ds| &&
              forall i :: 0 <= i < |ds| ==> r.value[i] == CodeActionFor(uri, ds[|ds| - 1 - i]).value)
  {
    MapReversed(ds, d => CodeActionFor(uri, d))
  }

  /** The characters that keep "Replace with: " from occurring early in a
      suggestion message. */
  lemma SeparatorCharacters()
    ensures ReplaceWith != [] && ReplaceWith[0] !in SuggestionPrefix
    ensures ReplaceWith[0] !in ". " && ". "[0] !in ReplaceWith
  {
    assert ReplaceWith[0] == 'R';
  }

  /** Neither the prefix nor the separator contains the start of "Replace
      with: " in a way that could make it occur early. */
  lemma FirstReplaceWith(hint: string, to: string)
    requires !Contains(hint, ReplaceWith)
    ensures var m := SuggestionPrefix + hint + Separator + to;
            IndexOf(m, ReplaceWith) == |SuggestionPrefix| + |hint| + 2 &&
            ReplaceWithCapture(m) == Some(to)
  {
    var m := SuggestionPrefix + hint + Separator + to;
    var n := |SuggestionPrefix| + |hint| + 2;
    assert m == SuggestionPrefix + hint + ". " + ReplaceWith + to;
    SeparatorCharacters();
    FirstOccurrenceAfter(SuggestionPrefix, hint, ". ", ReplaceWith, to);
    assert IndexOf(m, ReplaceWith) == n;
    assert m[n + |ReplaceWith|..] == to;
  }

  /** What the callback reads out of a suggestion message: it starts with
      the prefix, its title is the rest, and its capture is exactly `to`. */
  lemma SuggestionMessageParts(hint: string, to: string)
    requires !Contains(hint, ReplaceWith)
    ensures var m := SuggestionPrefix + hint + Separator + to;
            IndexOf(m, SuggestionPrefix) == 0 &&
            ReplaceFirst(m, SuggestionPrefix, "") == hint + Separator + to &&
            ReplaceWithCapture(m) == Some(to)
  {
    var m := SuggestionPrefix + hint + Separator + to;
    var rest := hint + Separator + to;
    assert m == SuggestionPrefix + rest;
    assert m[..|SuggestionPrefix|] == SuggestionPrefix && m[|SuggestionPrefix|..] == rest;
    IndexOfZero(m, SuggestionPrefix);
    ReplaceLeadingOccurrence(m, SuggestionPrefix);
    FirstReplaceWith(hint, to);
  }

  /** Round trip: the quick fix read back from a suggestion diagnostic
      replaces the item's range by exactly the item's `to`, and its title is
      the message without the prefix. */
  lemma SuggestionRoundTrip(uri: string, item: LintItem)
    requires !IsParseError(item)
    requires !Contains(item.hint, ReplaceWith)
    requires item.to != ""
    ensures var d := AsDiagnostic(item);
            CodeActionFor(uri, d) ==
              Ok(Run(Command(item.hint + Separator + item.to, CommandId, item.to, uri, GetRange(item), d.message)))
  {
    SuggestionMessageParts(item.hint, item.to);
  }

  /** A suggestion with an empty replacement offers its slot but no command. */
  lemma EmptyReplacementOffersNothing(uri: string, item: LintItem)
    requires !IsParseError(item)
    requires !Contains(item.hint, ReplaceWith)
    requires item.to == ""
    ensures CodeActionFor(uri, AsDiagnostic(item)) == Ok(NoReplacement)
  {
    SuggestionMessageParts(item.hint, item.to);
  }

  /** Parse errors never offer a quick fix. */
  lemma ParseErrorOffersNothing(uri: string, item: LintItem)
    requires IsParseError(item)
    ensures CodeActionFor(uri, AsDiagnostic(item)) == Ok(NotSuggestion)
  {
    var m := AsDiagnostic(item).message;
    assert m == ErrorPrefix + item.hint;
    assert m[6] == 'E' != SuggestionPrefix[6];
    assert |SuggestionPrefix| <= |m| ==> m[..|SuggestionPrefix|][6] == m[6];
    IndexOfZero(m, SuggestionPrefix);
  }

  // ---- Provider state ----

  /** The `haskell` configuration section; `None` is a setting left unset,
      for which `section.get` returns its default. */
  datatype HlintSettings = HlintSettings(
    executablePath: Option<string>,
    run: Option<string>,
    hints: Option<seq<string>>,
    ignore: Option<seq<string>>,
    logLevel: Option<string>)

  /** The provider's fields: each delayer is recorded by its delay in ms; a
      published entry is `None` for the `null` set when the trigger is never. */
  datatype HlintState = HlintState(
    executable: Option<string>,
    trigger: RunTrigger,
    hintArgs: seq<string>,
    ignoreArgs: seq<string>,
    executableNotFound: bool,
    delayers: map<string, nat>,
    diagnostics: map<string, Option<seq<Diagnostic>>>,
    logLevel: Option<LogLevel>)

  /** After the constructor, before the first configuration load. The trigger
      is undefined there and every later state takes it from the settings;
      `Never` stands in for it. */
  const Constructed: HlintState :=
    HlintState(None, Never, [], [], false, map[], map[], Some(LevelError))

  /** `xs.map(arg => prefix + arg)`. */
  function Prefixed(prefix: string, xs: seq<string>): (r: seq<string>)
    ensures |r| == |xs| && forall i :: 0 <= i < |xs| ==> r[i] == prefix + xs[i]
  {
    seq(|xs|, i requires 0 <= i < |xs| => prefix + xs[i])
  }

  /** The field updates of `loadConfiguration`: a reload keeps the
      not-found flag only while the executable stays the same, and it
      forgets every delayer. */
  function Configured(s: HlintState, c: HlintSettings): (r: HlintState)
    ensures r.executable == Some(c.executablePath.GetOr(DefaultExecutable))
    ensures r.trigger == RunTriggerFrom(c.run.GetOr(DefaultRun))
    ensures r.hintArgs == Prefixed("--hint=", c.hints.GetOr([]))
    ensures r.ignoreArgs == Prefixed("--ignore=", c.ignore.GetOr([]))
    ensures r.logLevel == LevelFromName(c.logLevel.GetOr(DefaultLogLevel))
    ensures r.executableNotFound <==> s.executableNotFound && s.executable == r.executable
    ensures r.delayers == map[] && r.diagnostics == s.diagnostics
  {
    var executable := Some(c.executablePath.GetOr(DefaultExecutable));
    HlintState(
      executable,
      RunTriggerFrom(c.run.GetOr(DefaultRun)),
      Prefixed("--hint=", c.hints.GetOr([])),
      Prefixed("--ignore=", c.ignore.GetOr([])),
      s.executableNotFound && s.executable == executable,
      map[],
      s.diagnostics,
      LevelFromName(c.logLevel.GetOr(DefaultLogLevel)))
  }

  /** The delay of a freshly created delayer. */
  function Delay(t: RunTrigger): (d: nat)
    ensures d == 250 <==> t == OnType
    ensures d == 0 <==> t != OnType
  {
    if t == OnType then 250 else 0
  }

  /** `triggerHlint` reaches `delayer.trigger` (a run is scheduled). */
  predicate Lints(s: HlintState, doc: Document) {
    doc.languageId == "haskell" && !s.executableNotFound && s.trigger != Never
  }

  /** `triggerHlint`: other languages and a missing executable are ignored;
      with trigger never the document's diagnostics are cleared; otherwise
      the document gets a delayer unless it has one, and existing delayers
      keep theirs. */
  function Triggered(s: HlintState, doc: Document): (r: HlintState)
    ensures r.(delayers := s.delayers, diagnostics := s.diagnostics) == s
    ensures doc.languageId != "haskell" || s.executableNotFound ==> r == s
    ensures r.delayers.Keys == s.delayers.Keys + (if Lints(s, doc) then {doc.uri} else {})
    ensures forall k :: k in s.delayers ==> r.delayers[k] == s.delayers[k]
    ensures Lints(s, doc) && doc.uri !in s.delayers ==> r.delayers[doc.uri] == Delay(s.trigger)
    ensures r.diagnostics ==
              if doc.languageId == "haskell" && !s.executableNotFound && s.trigger == Never
              then s.diagnostics[doc.uri := None] else s.diagnostics
  {
    if doc.languageId != "haskell" || s.executableNotFound then s
    else if s.trigger == Never then s.(diagnostics := s.diagnostics[doc.uri := None])
    else if doc.uri in s.delayers then s
    else s.(delayers := s.delayers[doc.uri := Delay(s.trigger)])
  }

  /** `textDocuments.forEach(this.triggerHlint, this)`. */
  function TriggeredAll(s: HlintState, docs: seq<Document>): (r: HlintState)
    ensures r.(delayers := s.delayers, diagnostics := s.diagnostics) == s
    ensures s.executableNotFound ==> r == s
  {
    if docs == [] then s
    else Triggered(TriggeredAll(s, docs[..|docs| - 1]), docs[|docs| - 1])
  }

  /** `loadConfiguration` as a whole: the field updates, then every open
      document is triggered again. */
  function Reload(s: HlintState, c: HlintSettings, docs: seq<Document>): (r: HlintState)
    ensures r.executable == Some(c.executablePath.GetOr(DefaultExecutable))
    ensures r.executableNotFound <==> s.executableNotFound && s.executable == r.executable
  {
    TriggeredAll(Configured(s, c), docs)
  }

  /** The constructor followed by `activate`: one configuration load (which
      triggers the open documents) and a second pass over them. */
  function Activated(c: HlintSettings, docs: seq<Document>): HlintState {
    TriggeredAll(Reload(Constructed, c, docs), docs)
  }

  /** The close listener: the document's diagnostics and delayer are dropped. */
  function Closed(s: HlintState, uri: string): (r: HlintState)
    ensures uri !in r.diagnostics && uri !in r.delayers
    ensures r.diagnostics.Keys == s.diagnostics.Keys - {uri} && r.delayers.Keys == s.delayers.Keys - {uri}
    ensures forall k :: k in r.diagnostics ==> r.diagnostics[k] == s.diagnostics[k]
    ensures forall k :: k in r.delayers ==> r.delayers[k] == s.delayers[k]
    ensures r.(delayers := s.delayers, diagnostics := s.diagnostics) == s
  {
    s.(diagnostics := s.diagnostics - {uri}, delayers := s.delayers - {uri})
  }

  /** The message the error listener passes to `logger.error`, or `None` when
      the executable is already known to be missing and nothing is reported. */
  function SpawnReport(s: HlintState, err: SpawnFailure, executable: string): (m: Option<string>)
    ensures m.None? <==> s.executableNotFound
    ensures m.Some? && err.code == "ENOENT" ==> m.value == NotFoundMessage
    ensures m.Some? && err.code != "ENOENT" && err.message != "" ==> m.value == err.message
    ensures m.Some? && err.code != "ENOENT" && err.message == "" ==>
              m.value == "Failed to run hlint using path: " + executable + ". Reason is unknown."
  {
    if s.executableNotFound then None
    else if err.code == "ENOENT" then Some(NotFoundMessage)
    else if err.message != "" then Some(err.message)
    else Some("Failed to run hlint using path: " + executable + ". Reason is unknown.")
  }

  /** After a spawn error the executable counts as missing, whatever the error was. */
  function SpawnFailed(s: HlintState): (r: HlintState)
    ensures r.executableNotFound
    ensures s.executableNotFound ==> r == s
    ensures r.(executableNotFound := s.executableNotFound) == s
  {
    s.(executableNotFound := true)
  }

  /** `this.executable || 'hlint'`. */
  function RunExecutable(executable: Option<string>): (e: string)
    ensures e != ""
    ensures executable.Some? && executable.value != "" ==> e == executable.value
    ensures executable.None? || executable.value == "" ==> e == DefaultExecutable
  {
    if executable.Some? && executable.value != "" then executable.value else DefaultExecutable
  }

  /** What `doHlint` spawns: on save hlint reads the file, otherwise stdin,
      which then receives the document's text. */
  function PlannedInvocation(s: HlintState, doc: Document, rootPath: Option<string>): (inv: Invocation)
    ensures inv.executable == RunExecutable(s.executable) && inv.cwd == SpawnCwd(rootPath)
    ensures s.trigger == OnSave ==> inv.args == ["--json", doc.fileName] + s.hintArgs + s.ignoreArgs
    ensures s.trigger != OnSave ==> inv.args == ["-", "--json"] + s.hintArgs + s.ignoreArgs
    ensures inv.stdin.Some? <==> s.trigger == OnType
    ensures inv.stdin.Some? ==> inv.stdin.value == doc.text
  {
    var args := (if s.trigger == OnSave then FileArgs + [doc.fileName] else BufferArgs) + s.hintArgs + s.ignoreArgs;
    Invocation(RunExecutable(s.executable), args, SpawnCwd(rootPath), if s.trigger == OnType then Some(doc.text) else None)
  }

  /** Where each part of `lead + hintArgs + ignoreArgs` lands, the hints
      and ignores carrying their prefixes. */
  lemma {:induction false} ArgumentLayout(lead: seq<string>, hs: seq<string>, igs: seq<string>)
    requires |lead| == 2
    ensures var args := lead + Prefixed("--hint=", hs) + Prefixed("--ignore=", igs);
            |args| == 2 + |hs| + |igs| && args[..2] == lead &&
            (forall i :: 0 <= i < |hs| ==> args[2 + i] == "--hint=" + hs[i]) &&
            (forall j :: 0 <= j < |igs| ==> args[2 + |hs| + j] == "--ignore=" + igs[j])
  {
    var front := lead + Prefixed("--hint=", hs);
    var args := front + Prefixed("--ignore=", igs);
    assert |front| == 2 + |hs|;
    forall i | 0 <= i < |hs|
      ensures args[2 + i] == "--hint=" + hs[i]
    {
      assert args[2 + i] == front[2 + i];
    }
    forall j | 0 <= j < |igs|
      ensures args[2 + |hs| + j] == "--ignore=" + igs[j]
    {
      assert args[|front| + j] == Prefixed("--ignore=", igs)[j];
    }
  }

  /** The default `onType` is not `onSave`. */
  lemma SavesExactlyWhenConfigured(c: HlintSettings)
    ensures RunTriggerFrom(c.run.GetOr(DefaultRun)) == OnSave <==> c.run == Some("onSave")
  {
    assert DefaultRun != "onSave";
  }

  /** The two leading arguments for the configured trigger. */
  function Lead(c: HlintSettings, doc: Document): seq<string> {
    if c.run == Some("onSave") then ["--json", doc.fileName] else ["-", "--json"]
  }

  /** After a reload the command line is the leading pair, then the
      prefixed hints, then the prefixed ignores. */
  lemma ConfiguredArguments(s: HlintState, c: HlintSettings, doc: Document, rootPath: Option<string>)
    ensures PlannedInvocation(Configured(s, c), doc, rootPath).args ==
              Lead(c, doc) + Prefixed("--hint=", c.hints.GetOr([])) + Prefixed("--ignore=", c.ignore.GetOr([]))
  {
    SavesExactlyWhenConfigured(c);
  }

  /** The configured hints and ignores reach the command line, in order,
      after the two leading arguments. */
  lemma ArgumentsFromSettings(s: HlintState, c: HlintSettings, doc: Document, rootPath: Option<string>)
    ensures var hs := c.hints.GetOr([]);
            var igs := c.ignore.GetOr([]);
            var args := PlannedInvocation(Configured(s, c), doc, rootPath).args;
            |args| == 2 + |hs| + |igs| &&
            (c.run == Some("onSave") ==> args[..2] == ["--json", doc.fileName]) &&
            (c.run != Some("onSave") ==> args[..2] == ["-", "--json"]) &&
            (forall i :: 0 <= i < |hs| ==> args[2 + i] == "--hint=" + hs[i]) &&
            (forall j :: 0 <= j < |igs| ==> args[2 + |hs| + j] == "--ignore=" + igs[j])
  {
    ConfiguredArguments(s, c, doc, rootPath);
    ArgumentLayout(Lead(c, doc), c.hints.GetOr([]), c.ignore.GetOr([]));
  }

  /** The stdout end handler's result: empty output publishes no
      diagnostics; other output is parsed, and a parse failure throws. */
  function RunOutcome(output: string, parse: Parser): (r: Result<seq<Diagnostic>>)
    ensures output == "" ==> r == Ok([])
    ensures output != "" ==> (r.Throws? <==> parse(output).Throws?)
    ensures output != "" && parse(output).Ok? ==> r == Ok(MapPresent(parse(output).value, AsDiagnostic))
  {
    if output == "" then Ok([])
    else
      var parsed := parse(output);
      if parsed.Throws? then Throws else Ok(MapPresent(parsed.value, AsDiagnostic))
  }

  /** A finished run replaces the document's published diagnostics
      wholesale; a run whose output does not parse publishes nothing. */
  function Finished(s: HlintState, uri: string, output: string, parse: Parser): (r: HlintState)
    ensures RunOutcome(output, parse).Throws? ==> r == s
    ensures RunOutcome(output, parse).Ok? ==>
              r == s.(diagnostics := s.diagnostics[uri := Some(RunOutcome(output, parse).value)])
  {
    var outcome := RunOutcome(output, parse);
    if outcome.Throws? then s else s.(diagnostics := s.diagnostics[uri := Some(outcome.value)])
  }

  /** The `camelCase` example: hlint's item on line 1, columns 5 to 10. */
  const CamelCaseItem: LintItem :=
    LintItem("Main", "f", "Warning", "Use camelCase", "a.hs", 1, 5, 1, 10, "my_var", "myVar", [])

  lemma CamelCaseIsSuggestion()
    ensures !IsParseError(CamelCaseItem)
  {
    assert Lower("Use camelCase") == "use camelcase";
    assert 'p' !in "use camelcase";
    MissingFirstChar(Lower(CamelCaseItem.hint), "parse error");
  }

  lemma CamelCaseDiagnostic()
    ensures AsDiagnostic(CamelCaseItem) ==
              Diagnostic(Range(Position(0, 4), Position(0, 9)),
                         "Hlint Suggestion: Use camelCase. Replace with: myVar", Warning)
  {
    SeverityExamples();
    CamelCaseMessage();
  }

  lemma CamelCaseMessage()
    ensures AsDiagnostic(CamelCaseItem).message == "Hlint Suggestion: Use camelCase. Replace with: myVar"
  {
    CamelCaseIsSuggestion();
    CamelCaseText();
  }

  lemma CamelCaseText()
    ensures SuggestionPrefix + "Use camelCase" + Separator + "myVar" == "Hlint Suggestion: Use camelCase. Replace with: myVar"
  {
    CamelCaseHead();
    CamelCaseTail();
    CamelCaseJoined();
  }

  lemma CamelCaseHead()
    ensures SuggestionPrefix + "Use camelCase" == "Hlint Suggestion: Use camelCase"
  {
  }

  lemma CamelCaseTail()
    ensures Separator + "myVar" == ". Replace with: myVar"
  {
  }

  lemma CamelCaseJoined()
    ensures "Hlint Suggestion: Use camelCase" + ". Replace with: myVar" == "Hlint Suggestion: Use camelCase. Replace with: myVar"
  {
  }

  /** It is published as one warning at 0-based (0, 4)-(0, 9). */
  lemma CamelCaseExample(s: HlintState, uri: string, output: string, parse: Parser)
    requires output != ""
    requires parse(output) == Ok([Some(CamelCaseItem)])
    ensures Finished(s, uri, output, parse).diagnostics[uri] ==
              Some([Diagnostic(Range(Position(0, 4), Position(0, 9)),
                               "Hlint Suggestion: Use camelCase. Replace with: myVar", Warning)])
  {
    CamelCaseDiagnostic();
    var d := AsDiagnostic(CamelCaseItem);
    MapPresentCons(CamelCaseItem, [], AsDiagnostic);
    assert [Some(CamelCaseItem)] + [] == [Some(CamelCaseItem)];
    assert MapPresent([Some(CamelCaseItem)], AsDiagnostic) == [d];
    assert RunOutcome(output, parse) == Ok([d]);
  }

  // ---- Properties of the bookkeeping ----

  /** The uris of the documents a pass schedules runs for. */
  function LintedUris(s: HlintState, docs: seq<Document>): set<string> {
    set i | 0 <= i < |docs| && Lints(s, docs[i]) :: docs[i].uri
  }

  /** The uris linted in a pass are those of all but the last document,
      and the last one's when it is linted. */
  lemma LintedUrisSnoc(s: HlintState, docs: seq<Document>)
    requires docs != []
    ensures var last := docs[|docs| - 1];
            LintedUris(s, docs) == LintedUris(s, docs[..|docs| - 1]) + (if Lints(s, last) then {last.uri} else {})
  {
    var init := docs[..|docs| - 1];
    var last := docs[|docs| - 1];
    forall k | k in LintedUris(s, docs)
      ensures k in LintedUris(s, init) + (if Lints(s, last) then {last.uri} else {})
    {
      var i :| 0 <= i < |docs| && Lints(s, docs[i]) && docs[i].uri == k;
      if i < |docs| - 1 {
        assert init[i] == docs[i];
      }
    }
    forall k | k in LintedUris(s, init)
      ensures k in LintedUris(s, docs)
    {
      var i :| 0 <= i < |init| && Lints(s, init[i]) && init[i].uri == k;
      assert docs[i] == init[i];
    }
  }

  /** A pass over documents creates exactly the delayers of the haskell
      documents it schedules, each with the trigger's delay. */
  lemma {:induction false} TriggeredAllDelayers(s: HlintState, docs: seq<Document>)
    ensures TriggeredAll(s, docs).delayers.Keys == s.delayers.Keys + LintedUris(s, docs)
    ensures forall k :: k in TriggeredAll(s, docs).delayers && k !in s.delayers ==>
              TriggeredAll(s, docs).delayers[k] == Delay(s.trigger)
  {
    if docs != [] {
      var init := docs[..|docs| - 1];
      var last := docs[|docs| - 1];
      TriggeredAllDelayers(s, init);
      var t := TriggeredAll(s, init);
      assert Lints(t, last) == Lints(s, last);
      LintedUrisSnoc(s, docs);
    }
  }

  /** After a reload every delayer belongs to an open haskell document the
      new settings lint, and has the new trigger's delay. */
  lemma ReloadDelayers(s: HlintState, c: HlintSettings, docs: seq<Document>)
    ensures var r := Reload(s, c, docs);
            r.delayers.Keys == LintedUris(Configured(s, c), docs) &&
            forall k :: k in r.delayers ==> r.delayers[k] == Delay(r.trigger)
  {
    TriggeredAllDelayers(Configured(s, c), docs);
  }

  /** Triggering `doc` again in state `t` changes nothing. */
  predicate Settled(t: HlintState, doc: Document) {
    !(doc.languageId == "haskell" && !t.executableNotFound) ||
    (t.trigger == Never && doc.uri in t.diagnostics && t.diagnostics[doc.uri] == None) ||
    (t.trigger != Never && doc.uri in t.delayers)
  }

  lemma SettledIsFixed(t: HlintState, doc: Document)
    requires Settled(t, doc)
    ensures Triggered(t, doc) == t
  {
    if doc.languageId == "haskell" && !t.executableNotFound && t.trigger == Never {
      assert t.diagnostics[doc.uri := None] == t.diagnostics;
    }
  }

  lemma SettledByTrigger(t: HlintState, doc: Document, other: Document)
    ensures Settled(Triggered(t, doc), doc)
    ensures Settled(t, other) ==> Settled(Triggered(t, doc), other)
  {
  }

  lemma {:induction false} SettledByPass(s: HlintState, docs: seq<Document>)
    ensures forall i :: 0 <= i < |docs| ==> Settled(TriggeredAll(s, docs), docs[i])
  {
    if docs != [] {
      var init := docs[..|docs| - 1];
      SettledByPass(s, init);
      var t := TriggeredAll(s, init);
      forall i | 0 <= i < |docs|
        ensures Settled(TriggeredAll(s, docs), docs[i])
      {
        SettledByTrigger(t, docs[|docs| - 1], docs[i]);
        if i < |docs| - 1 {
          assert init[i] == docs[i];
        }
      }
    }
  }

  lemma {:induction false} SettledPassIsFixed(t: HlintState, docs: seq<Document>)
    requires forall i :: 0 <= i < |docs| ==> Settled(t, docs[i])
    ensures TriggeredAll(t, docs) == t
  {
    if docs != [] {
      var init := docs[..|docs| - 1];
      assert forall i :: 0 <= i < |init| ==> init[i] == docs[i];
      SettledPassIsFixed(t, init);
      SettledIsFixed(t, docs[|docs| - 1]);
    }
  }

  /** Triggering the same documents twice is the same as once; hence the
      second pass of `activate` changes nothing. */
  lemma TriggeredAllIdempotent(s: HlintState, docs: seq<Document>)
    ensures TriggeredAll(TriggeredAll(s, docs), docs) == TriggeredAll(s, docs)
  {
    SettledByPass(s, docs);
    SettledPassIsFixed(TriggeredAll(s, docs), docs);
  }

  lemma ActivatedIsOneLoad(c: HlintSettings, docs: seq<Document>)
    ensures Activated(c, docs) == Reload(Constructed, c, docs)
    ensures !Activated(c, docs).executableNotFound
  {
    TriggeredAllIdempotent(Configured(Constructed, c), docs);
  }

  /** The events the provider reacts to, with what they carry. */
  datatype HlintEvent =
    | ConfigurationChanged(settings: HlintSettings, docs: seq<Document>)
    | DocumentTriggered(doc: Document)
    | DocumentClosed(uri: string)
    | SpawnErrored
    | OutputEnded(uri: string, output: string, parse: Parser)

  function Step(s: HlintState, e: HlintEvent): HlintState {
    match e
    case ConfigurationChanged(c, docs) => Reload(s, c, docs)
    case DocumentTriggered(doc) => Triggered(s, doc)
    case DocumentClosed(uri) => Closed(s, uri)
    case SpawnErrored => SpawnFailed(s)
    case OutputEnded(uri, output, parse) => Finished(s, uri, output, parse)
  }

  function Replay(s: HlintState, events: seq<HlintEvent>): HlintState
    decreases |events|
  {
    if events == [] then s else Replay(Step(s, events[0]), events[1..])
  }

  /** Once the executable is missing it stays missing, and no delayer is
      created, for as long as reloads keep the same executable setting. */
  lemma {:induction false} NotFoundIsSticky(s: HlintState, events: seq<HlintEvent>)
    requires s.executableNotFound
    requires forall i :: 0 <= i < |events| && events[i].ConfigurationChanged? ==>
               s.executable == Some(events[i].settings.executablePath.GetOr(DefaultExecutable))
    ensures Replay(s, events).executableNotFound
    ensures Replay(s, events).executable == s.executable
    ensures Replay(s, events).delayers.Keys <= s.delayers.Keys
    decreases |events|
  {
    if events != [] {
      var t := Step(s, events[0]);
      assert t.executableNotFound && t.executable == s.executable && t.delayers.Keys <= s.delayers.Keys;
      assert forall i :: 0 <= i < |events[1..]| ==> events[1..][i] == events[i + 1];
      NotFoundIsSticky(t, events[1..]);
    }
  }

  // ---- The provider object ----

  class HaskellLintingProvider {
    var executable: Option<string>
    var trigger: RunTrigger
    var hintArgs: seq<string>
    var ignoreArgs: seq<string>
    var executableNotFound: bool
    var delayers: map<string, nat>
    var diagnostics: map<string, Option<seq<Diagnostic>>>
    const logger: Logger

    function State(): HlintState
      reads this, logger
    {
      HlintState(executable, trigger, hintArgs, ignoreArgs, executableNotFound, delayers, diagnostics, logger.level)
    }

    /** `new HaskellLintingProvider()` followed by `activate`, with the
      configuration and the open documents of that moment. */
    constructor(c: HlintSettings, openDocs: seq<Document>)
      ensures State() == Activated(c, openDocs)
    {
      executable := None;
      executableNotFound := false;
      hintArgs := [];
      ignoreArgs := [];
      trigger := Never;
      delayers := map[];
      diagnostics := map[];
      logger := new Logger(None, None);
      new;
      LoadConfiguration(c, openDocs);
      TriggerAll(openDocs);
    }

    method LoadConfiguration(c: HlintSettings, openDocs: seq<Document>)
      modifies this, logger
      ensures State() == Reload(old(State()), c, openDocs)
    {
      var oldExecutable := executable;
      executable := Some(c.executablePath.GetOr(DefaultExecutable));
      trigger := RunTriggerFrom(c.run.GetOr(DefaultRun));
      hintArgs := Prefixed("--hint=", c.hints.GetOr([]));
      ignoreArgs := Prefixed("--ignore=", c.ignore.GetOr([]));
      logger.SetLogLevel(LevelFromName(c.logLevel.GetOr(DefaultLogLevel)));
      delayers := map[];
      if executableNotFound {
        executableNotFound := oldExecutable == executable;
      }
      assert State() == Configured(old(State()), c);
      TriggerAll(openDocs);
    }

    method TriggerAll(docs: seq<Document>)
      modifies this
      ensures State() == TriggeredAll(old(State()), docs)
    {
      for i := 0 to |docs|
        invariant State() == TriggeredAll(old(State()), docs[..i])
      {
        assert docs[..i + 1][..i] == docs[..i];
        var _ := TriggerHlint(docs[i]);
      }
      assert docs[..|docs|] == docs;
    }

    /** `triggerHlint`; `scheduled` tells whether a run was handed to the
        document's delayer. */
    method TriggerHlint(doc: Document) returns (scheduled: bool)
      modifies this
      ensures State() == Triggered(old(State()), doc)
      ensures scheduled == Lints(old(State()), doc)
    {
      scheduled := false;
      if doc.languageId != "haskell" || executableNotFound {
        return;
      }
      if trigger == Never {
        diagnostics := diagnostics[doc.uri := None];
        return;
      }
      if doc.uri !in delayers {
        delayers := delayers[doc.uri := Delay(trigger)];
      }
      scheduled := true;
    }

    method Close(uri: string)
      modifies this
      ensures State() == Closed(old(State()), uri)
    {
      diagnostics := diagnostics - {uri};
      delayers := delayers - {uri};
    }

    /** The arguments `doHlint` computes before spawning. */
    method PlanRun(doc: Document, rootPath: Option<string>) returns (inv: Invocation)
      ensures inv == PlannedInvocation(State(), doc, rootPath)
    {
      var args: seq<string>;
      if trigger == OnSave {
        args := FileArgs + [doc.fileName];
      } else {
        args := BufferArgs;
      }
      args := args + hintArgs;
      args := args + ignoreArgs;
      var stdin := if trigger == OnType then Some(doc.text) else None;
      inv := Invocation(RunExecutable(executable), args, SpawnCwd(rootPath), stdin);
    }

    /** The spawn error listener of a run of `executable`; `popup` is what
        the logger shows. */
    method SpawnError(err: SpawnFailure, executable: string) returns (popup: Option<string>)
      modifies this
      ensures State() == SpawnFailed(old(State()))
      ensures popup.Some? <==> SpawnReport(old(State()), err, executable).Some? && AtLeast(logger.level, LevelError)
      ensures popup.Some? ==> popup == SpawnReport(old(State()), err, executable)
    {
      popup := None;
      if executableNotFound {
        return;
      }
      var message: string;
      if err.code == "ENOENT" {
        message := NotFoundMessage;
      } else {
        message := if err.message != "" then err.message else "Failed to run hlint using path: " + executable + ". Reason is unknown.";
      }
      var _, shown := logger.Error(message);
      popup := shown;
      executableNotFound := true;
    }

    /** The stdout listeners of a run: the chunks are decoded, the output is
        parsed when it is not empty, and the result is published. */
    method StdoutEnd(uri: string, chunks: seq<string>, parse: Parser)
      modifies this
      ensures State() == Finished(old(State()), uri, Strip(Join(chunks)), parse)
    {
      var output := AssembleOutput(chunks);
      var found: seq<Diagnostic> := [];
      if output != "" {
        var parsed := parse(output);
        if parsed.Throws? {
          return;
        }
        found := PushPresent(parsed.value, AsDiagnostic);
      }
      diagnostics := diagnostics[uri := Some(found)];
    }
  }
}
