/** The validation provider of `src/features/validationProvider.ts`: hlint
    with a fixed set of hints, run on the saved file, its output always
    parsed as JSON. */
module ValidationProvider {
  import opened Wrappers
  import opened Text
  import opened Lint
  import opened LineSplit
  import opened LineDecoding

  const DefaultExecutable: string := "hlint"
  const FileArgs: seq<string> := ["--json", "--hint=Default", "--hint=Dollar", "--hint=Generalise"]
  const NotFoundMessage: string :=
    "Cannot validate the haskell file. The hlint program was not found. Use the 'haskell.validate.executablePath' setting to configure the location of 'hlint'"

  /** The provider's fields; each delayer is recorded by its delay in ms. */
  datatype ValidationState = ValidationState(
    executable: Option<string>,
    executableNotFound: bool,
    delayers: map<string, nat>,
    diagnostics: map<string, seq<Diagnostic>>)

  /** After the constructor; before the first load there are no delayers,
      which the empty map stands in for. */
  const Constructed: ValidationState := ValidationState(None, false, map[], map[])

  /** The field updates of `loadConfiguration` for the setting
      `validate.executablePath` of the `hlint` section, `None` when unset
      (its default is `null`). */
  function Configured(s: ValidationState, executablePath: Option<string>): (r: ValidationState)
    ensures r.executable == executablePath
    ensures r.executableNotFound <==> s.executableNotFound && s.executable == executablePath
    ensures r.delayers == map[] && r.diagnostics == s.diagnostics
  {
    ValidationState(executablePath, s.executableNotFound && s.executable == executablePath, map[], s.diagnostics)
  }

  /** `triggerValidate` runs a validation: a haskell document while the
      executable is not known to be missing. */
  predicate Validates(s: ValidationState, doc: Document) {
    doc.languageId == "haskell" && !s.executableNotFound
  }

  /** The documents of a pass that are validated, in order. */
  function ValidatedDocs(s: ValidationState, docs: seq<Document>): (r: seq<Document>)
    ensures |r| <= |docs|
    ensures forall d :: d in r <==> d in docs && Validates(s, d)
  {
    if docs == [] then []
    else
      var last := docs[|docs| - 1];
      ValidatedDocs(s, docs[..|docs| - 1]) + (if Validates(s, last) then [last] else [])
  }

  /** `loadConfiguration`: the pass over the open documents leaves the
      fields as the updates left them. */
  function Reload(s: ValidationState, executablePath: Option<string>): (r: ValidationState)
    ensures r.executable == executablePath
    ensures r.executableNotFound <==> s.executableNotFound && s.executable == executablePath
    ensures r.delayers == map[] && r.diagnostics == s.diagnostics
  {
    Configured(s, executablePath)
  }

  /** The close listener. */
  function Closed(s: ValidationState, uri: string): (r: ValidationState)
    ensures uri !in r.diagnostics && uri !in r.delayers
    ensures r.diagnostics.Keys == s.diagnostics.Keys - {uri} && r.delayers.Keys == s.delayers.Keys - {uri}
    ensures forall k :: k in r.diagnostics ==> r.diagnostics[k] == s.diagnostics[k]
    ensures r.(delayers := s.delayers, diagnostics := s.diagnostics) == s
  {
    s.(diagnostics := s.diagnostics - {uri}, delayers := s.delayers - {uri})
  }

  /** `this.executable || 'hlint'`. */
  function RunExecutable(executable: Option<string>): (e: string)
    ensures e != ""
    ensures executable.Some? && executable.value != "" ==> e == executable.value
    ensures executable.None? || executable.value == "" ==> e == DefaultExecutable
  {
    if executable.Some? && executable.value != "" then executable.value else DefaultExecutable
  }

  /** `doValidate` always runs on the saved file and writes nothing to stdin. */
  function PlannedInvocation(s: ValidationState, doc: Document, rootPath: Option<string>): (inv: Invocation)
    ensures inv.executable == RunExecutable(s.executable) && inv.cwd == SpawnCwd(rootPath)
    ensures inv.args == ["--json", "--hint=Default", "--hint=Dollar", "--hint=Generalise", doc.fileName]
    ensures inv.stdin.None?
  {
    Invocation(RunExecutable(s.executable), FileArgs + [doc.fileName], SpawnCwd(rootPath), None)
  }

  /** The information message of the error listener of a run of
      `executable`, or `None` when the executable is already known to be
      missing. */
  function SpawnReport(s: ValidationState, err: SpawnFailure, executable: string): (m: Option<string>)
    ensures m.None? <==> s.executableNotFound
    ensures m.Some? && err.code == "ENOENT" ==> m.value == NotFoundMessage
    ensures m.Some? && err.code != "ENOENT" && err.message != "" ==> m.value == err.message
    ensures m.Some? && err.code != "ENOENT" && err.message == "" ==>
              m.value == "Failed to run hlint using path: " + executable + ". Reason is unknown."
  {
    if s.executableNotFound then None
    else if err.code == "ENOENT" then Some(NotFoundMessage)
    else if err.message != "" then Some(err.message)
    else Some("Failed to run hlint using path: " + executable + ". Reason is unknown.")
  }

  function SpawnFailed(s: ValidationState): (r: ValidationState)
    ensures r.executableNotFound
    ensures s.executableNotFound ==> r == s
    ensures r.(executableNotFound := s.executableNotFound) == s
  {
    s.(executableNotFound := true)
  }

  /** The `processLine` callback for a present entry: the message names the
      hint, the code found and the suggested code; only "warning", in any
      case, is a warning. */
  function ValidationDiagnostic(item: LintItem): (d: Diagnostic)
    ensures d.range.start == Position(item.startLine - 1, item.startColumn - 1)
    ensures d.range.end == Position(item.endLine - 1, item.endColumn - 1)
    ensures d.message == item.hint + " Suggestion: " + item.from + " ==> " + item.to
    ensures d.severity == Warning <==> Lower(item.severity) == "warning"
  {
    var severity := if Lower(item.severity) == "warning" then Warning else Error;
    Diagnostic(Range(Position(item.startLine - 1, item.startColumn - 1), Position(item.endLine - 1, item.endColumn - 1)),
               item.hint + " Suggestion: " + item.from + " ==> " + item.to, severity)
  }

  /** The end handler: the output is parsed whether or not it is empty; a
      parse failure publishes nothing, otherwise the document's diagnostics
      are replaced. */
  function Finished(s: ValidationState, uri: string, output: string, parse: Parser): (r: ValidationState)
    ensures parse(output).Throws? ==> r == s
    ensures parse(output).Ok? ==>
              r == s.(diagnostics := s.diagnostics[uri := MapPresent(parse(output).value, ValidationDiagnostic)])
  {
    var parsed := parse(output);
    if parsed.Throws? then s else s.(diagnostics := s.diagnostics[uri := MapPresent(parsed.value, ValidationDiagnostic)])
  }

  /** When the parser rejects empty text, as `JSON.parse` does, a run with
      no output leaves the old diagnostics in place. */
  lemma EmptyOutputKeepsDiagnostics(s: ValidationState, uri: string, chunks: seq<string>, parse: Parser)
    requires parse("").Throws?
    requires forall i :: 0 <= i < |chunks| ==> OnlyBreaks(chunks[i])
    ensures Finished(s, uri, Strip(Join(chunks)), parse) == s
  {
    StripOnlyBreaks(chunks);
  }

  predicate OnlyBreaks(c: string) {
    forall i :: 0 <= i < |c| ==> IsBreak(c[i])
  }

  lemma {:induction false} StripOnlyBreaks(chunks: seq<string>)
    requires forall i :: 0 <= i < |chunks| ==> OnlyBreaks(chunks[i])
    ensures Strip(Join(chunks)) == ""
  {
    if chunks != [] {
      var init := chunks[..|chunks| - 1];
      var last := chunks[|chunks| - 1];
      assert forall i :: 0 <= i < |init| ==> init[i] == chunks[i];
      StripOnlyBreaks(init);
      StripAppend(Join(init), last);
      StripOfBreaks(last);
    }
  }

  lemma {:induction false} StripOfBreaks(c: string)
    requires OnlyBreaks(c)
    ensures Strip(c) == ""
  {
    if c != [] {
      assert IsBreak(c[0]);
      assert forall i :: 0 <= i < |c[1..]| ==> c[1..][i] == c[i + 1];
      StripOfBreaks(c[1..]);
    }
  }

  /** The events the provider reacts to. */
  datatype ValidationEvent =
    | ConfigurationChanged(executablePath: Option<string>)
    | DocumentClosed(uri: string)
    | SpawnErrored
    | OutputEnded(uri: string, output: string, parse: Parser)

  function Step(s: ValidationState, e: ValidationEvent): ValidationState {
    match e
    case ConfigurationChanged(path) => Reload(s, path)
    case DocumentClosed(uri) => Closed(s, uri)
    case SpawnErrored => SpawnFailed(s)
    case OutputEnded(uri, output, parse) => Finished(s, uri, output, parse)
  }

  function Replay(s: ValidationState, events: seq<ValidationEvent>): ValidationState
    decreases |events|
  {
    if events == [] then s else Replay(Step(s, events[0]), events[1..])
  }

  /** `triggerValidate` creates a delayer but never stores it: no sequence
      of events ever records one. Once the executable is missing it stays
      missing while reloads keep the same setting. */
  lemma {:induction false} Invariants(s: ValidationState, events: seq<ValidationEvent>)
    requires s.delayers == map[]
    ensures Replay(s, events).delayers == map[]
    ensures s.executableNotFound &&
            (forall i :: 0 <= i < |events| && events[i].ConfigurationChanged? ==> events[i].executablePath == s.executable)
            ==> Replay(s, events).executableNotFound && Replay(s, events).executable == s.executable
    decreases |events|
  {
    if events != [] {
      var t := Step(s, events[0]);
      assert t.delayers == map[];
      assert forall i :: 0 <= i < |events[1..]| ==> events[1..][i] == events[i + 1];
      Invariants(t, events[1..]);
    }
  }

  class HaskellValidationProvider {
    var executable: Option<string>
    var executableNotFound: bool
    var delayers: map<string, nat>
    var diagnostics: map<string, seq<Diagnostic>>

    function State(): ValidationState
      reads this
    {
      ValidationState(executable, executableNotFound, delayers, diagnostics)
    }

    /** The constructor and `activate`: one configuration load and two
        passes over the open documents, neither of which changes a field. */
    constructor(executablePath: Option<string>, openDocs: seq<Document>)
      ensures State() == Reload(Constructed, executablePath)
    {
      executable := None;
      executableNotFound := false;
      delayers := map[];
      diagnostics := map[];
      new;
      LoadConfiguration(executablePath, openDocs);
      var _ := TriggerAll(openDocs);
    }

    method LoadConfiguration(executablePath: Option<string>, openDocs: seq<Document>)
      modifies this
      ensures State() == Reload(old(State()), executablePath)
    {
      var oldExecutable := executable;
      executable := executablePath;
      delayers := map[];
      if executableNotFound {
        executableNotFound := oldExecutable == executable;
      }
      var _ := TriggerAll(openDocs);
    }

    /** `triggerValidate`: a fresh delayer with no delay runs the validation
        at once; no field changes. */
    method TriggerValidate(doc: Document) returns (scheduled: bool)
      ensures scheduled <==> doc.languageId == "haskell" && !executableNotFound
    {
      if doc.languageId != "haskell" || executableNotFound {
        return false;
      }
      scheduled := true;
    }

    /** `textDocuments.forEach(this.triggerValidate, this)`; `scheduled`
        lists the documents validated. */
    method TriggerAll(docs: seq<Document>) returns (scheduled: seq<Document>)
      ensures scheduled == ValidatedDocs(State(), docs)
    {
      scheduled := [];
      for i := 0 to |docs|
        invariant scheduled == ValidatedDocs(State(), docs[..i])
      {
        assert docs[..i + 1][..i] == docs[..i];
        var run := TriggerValidate(docs[i]);
        if run {
          scheduled := scheduled + [docs[i]];
        }
      }
      assert docs[..|docs|] == docs;
    }

    method Close(uri: string)
      modifies this
      ensures State() == Closed(old(State()), uri)
    {
      diagnostics := diagnostics - {uri};
      delayers := delayers - {uri};
    }

    method PlanRun(doc: Document, rootPath: Option<string>) returns (inv: Invocation)
      ensures inv == PlannedInvocation(State(), doc, rootPath)
    {
      var args := FileArgs + [doc.fileName];
      inv := Invocation(RunExecutable(executable), args, SpawnCwd(rootPath), None);
    }

    /** The spawn error listener of a run of `executable`; `shown` is the
        information message. */
    method SpawnError(err: SpawnFailure, executable: string) returns (shown: Option<string>)
      modifies this
      ensures State() == SpawnFailed(old(State()))
      ensures shown == SpawnReport(old(State()), err, executable)
    {
      if executableNotFound {
        return None;
      }
      var message: string;
      if err.code == "ENOENT" {
        message := NotFoundMessage;
      } else {
        message := if err.message != "" then err.message else "Failed to run hlint using path: " + executable + ". Reason is unknown.";
      }
      shown := Some(message);
      executableNotFound := true;
    }

    /** The stdout listeners: the chunks are decoded, the output parsed and
        every present entry pushed through `processLine`. */
    method StdoutEnd(uri: string, chunks: seq<string>, parse: Parser)
      modifies this
      ensures State() == Finished(old(State()), uri, Strip(Join(chunks)), parse)
    {
      var output := AssembleOutput(chunks);
      var parsed := parse(output);
      if parsed.Throws? {
        return;
      }
      var found := PushPresent(parsed.value, ValidationDiagnostic);
      diagnostics := diagnostics[uri := found];
    }
  }
}
