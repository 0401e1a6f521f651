/** The generic linting provider of `src/features/utils/lintingProvider.ts`:
    a language id, default options a subclass supplies, the configuration
    read from the `<languageId>.linter.*` settings, per-document delayers,
    and the diagnostics published for each finished run. */
module LintingProviders {
  import opened Wrappers
  import opened Lint
  import opened LineDecoding

  /** When the linter runs: on type, on save, or not at all. */
  datatype RunTrigger = OnSave | OnType | Off

  /** `RunTrigger.from`: any string other than the two names means off. */
  function RunTriggerFrom(value: string): (t: RunTrigger)
    ensures t == OnType <==> value == "onType"
    ensures t == OnSave <==> value == "onSave"
    ensures t == Off <==> value != "onType" && value != "onSave"
  {
    if value == "onType" then OnType
    else if value == "onSave" then OnSave
    else Off
  }

  /** Whether the output is handed on line by line or all at once. */
  datatype ProcessTrigger = Line | All

  /** `ProcessTrigger.from`: anything but "line" means all. */
  function ProcessTriggerFrom(value: string): (t: ProcessTrigger)
    ensures t == Line <==> value == "line"
  {
    if value == "line" then Line else All
  }

  /** `LinterOptions`: the defaults of each setting. */
  datatype LinterOptions = LinterOptions(
    executable: string,
    fileArgs: seq<string>,
    bufferArgs: seq<string>,
    runTrigger: string,
    processTrigger: string,
    extraArgs: seq<string>)

  /** The `linter.*` settings of the language's section; `None` is a setting
      left unset. */
  datatype LinterSettings = LinterSettings(
    executablePath: Option<string>,
    fileArgs: Option<seq<string>>,
    bufferArgs: Option<seq<string>>,
    run: Option<string>,
    process: Option<string>,
    args: Option<seq<string>>)

  const Unset: LinterSettings := LinterSettings(None, None, None, None, None, None)

  /** The provider's fields: each delayer is recorded by its delay in ms; a
      published entry holds `None` for an `undefined` diagnostic. */
  datatype LinterState = LinterState(
    executable: string,
    fileArgs: seq<string>,
    bufferArgs: seq<string>,
    extraArgs: seq<string>,
    runTrigger: RunTrigger,
    processTrigger: ProcessTrigger,
    executableNotFound: bool,
    delayers: map<string, nat>,
    diagnostics: map<string, seq<Option<Diagnostic>>>)

  /** After the constructor, before the first configuration load. The
      executable is `null` and `fileArgs`/`bufferArgs` are undefined there;
      the empty values stand in for them, and since the not-found flag is
      false no later state depends on them. `extraArgs` is `[]`, as set. */
  const Constructed: LinterState :=
    LinterState("", [], [], [], OnSave, All, false, map[], map[])

  /** The field updates of `loadConfiguration`, each setting falling back
      to the subclass's default. */
  function Configured(s: LinterState, defaults: LinterOptions, c: LinterSettings): (r: LinterState)
    ensures r.executable == c.executablePath.GetOr(defaults.executable)
    ensures r.fileArgs == c.fileArgs.GetOr(defaults.fileArgs)
    ensures r.bufferArgs == c.bufferArgs.GetOr(defaults.bufferArgs)
    ensures r.extraArgs == c.args.GetOr(defaults.extraArgs)
    ensures r.runTrigger == RunTriggerFrom(c.run.GetOr(defaults.runTrigger))
    ensures r.processTrigger == ProcessTriggerFrom(c.process.GetOr(defaults.processTrigger))
    ensures r.executableNotFound <==> s.executableNotFound && s.executable == r.executable
    ensures r.delayers == map[] && r.diagnostics == s.diagnostics
  {
    var executable := c.executablePath.GetOr(defaults.executable);
    LinterState(
      executable,
      c.fileArgs.GetOr(defaults.fileArgs),
      c.bufferArgs.GetOr(defaults.bufferArgs),
      c.args.GetOr(defaults.extraArgs),
      RunTriggerFrom(c.run.GetOr(defaults.runTrigger)),
      ProcessTriggerFrom(c.process.GetOr(defaults.processTrigger)),
      s.executableNotFound && s.executable == executable,
      map[],
      s.diagnostics)
  }

  /** The delay of a freshly created delayer. */
  function Delay(t: RunTrigger): (d: nat)
    ensures d == 250 <==> t == OnType
    ensures d == 0 <==> t != OnType
  {
    if t == OnType then 250 else 0
  }

  /** `triggerLint` reaches `delayer.trigger` (a run is scheduled). */
  predicate Lints(s: LinterState, languageId: string, doc: Document) {
    doc.languageId == languageId && !s.executableNotFound && s.runTrigger != Off
  }

  /** `triggerLint`: a document of another language, a missing executable
      or the off trigger change nothing; otherwise the document gets a
      delayer unless it has one. */
  function Triggered(s: LinterState, languageId: string, doc: Document): (r: LinterState)
    ensures r.(delayers := s.delayers) == s
    ensures !Lints(s, languageId, doc) ==> r == s
    ensures r.delayers.Keys == s.delayers.Keys + (if Lints(s, languageId, doc) then {doc.uri} else {})
    ensures forall k :: k in s.delayers ==> r.delayers[k] == s.delayers[k]
    ensures Lints(s, languageId, doc) && doc.uri !in s.delayers ==> r.delayers[doc.uri] == Delay(s.runTrigger)
  {
    if !Lints(s, languageId, doc) || doc.uri in s.delayers then s
    else s.(delayers := s.delayers[doc.uri := Delay(s.runTrigger)])
  }

  function TriggeredAll(s: LinterState, languageId: string, docs: seq<Document>): (r: LinterState)
    ensures r.(delayers := s.delayers) == s
    ensures s.executableNotFound || s.runTrigger == Off ==> r == s
  {
    if docs == [] then s
    else Triggered(TriggeredAll(s, languageId, docs[..|docs| - 1]), languageId, docs[|docs| - 1])
  }

  /** `loadConfiguration` as a whole. */
  function Reload(s: LinterState, languageId: string, defaults: LinterOptions, c: LinterSettings, docs: seq<Document>): (r: LinterState)
    ensures r.executable == c.executablePath.GetOr(defaults.executable)
    ensures r.executableNotFound <==> s.executableNotFound && s.executable == r.executable
    ensures r.diagnostics == s.diagnostics
  {
    TriggeredAll(Configured(s, defaults, c), languageId, docs)
  }

  /** The constructors followed by `activate`. */
  function Activated(languageId: string, defaults: LinterOptions, c: LinterSettings, docs: seq<Document>): LinterState {
    TriggeredAll(Reload(Constructed, languageId, defaults, c, docs), languageId, docs)
  }

  /** A document already holding a delayer is not changed by triggering it. */
  lemma {:induction false} TriggeredAllKeepsDelayers(s: LinterState, languageId: string, docs: seq<Document>)
    ensures forall i :: 0 <= i < |docs| && Lints(s, languageId, docs[i]) ==>
              docs[i].uri in TriggeredAll(s, languageId, docs).delayers
    ensures forall k :: k in TriggeredAll(s, languageId, docs).delayers ==>
              k in s.delayers || exists i :: 0 <= i < |docs| && Lints(s, languageId, docs[i]) && docs[i].uri == k
    ensures forall k :: k in s.delayers ==>
              (k in TriggeredAll(s, languageId, docs).delayers && TriggeredAll(s, languageId, docs).delayers[k] == s.delayers[k])
    ensures forall k :: k in TriggeredAll(s, languageId, docs).delayers && k !in s.delayers ==>
              TriggeredAll(s, languageId, docs).delayers[k] == Delay(s.runTrigger)
  {
    if docs != [] {
      var init := docs[..|docs| - 1];
      TriggeredAllKeepsDelayers(s, languageId, init);
      forall k | k in TriggeredAll(s, languageId, docs).delayers
        ensures k in s.delayers || exists i :: 0 <= i < |docs| && Lints(s, languageId, docs[i]) && docs[i].uri == k
      {
        if k !in s.delayers && k != docs[|docs| - 1].uri {
          var i :| 0 <= i < |init| && Lints(s, languageId, init[i]) && init[i].uri == k;
          assert docs[i] == init[i];
        }
      }
      forall i | 0 <= i < |docs| - 1
        ensures docs[i] == init[i]
      {
      }
    }
  }

  lemma {:induction false} PassIsFixed(t: LinterState, languageId: string, docs: seq<Document>)
    requires forall i :: 0 <= i < |docs| && Lints(t, languageId, docs[i]) ==> docs[i].uri in t.delayers
    ensures TriggeredAll(t, languageId, docs) == t
  {
    if docs != [] {
      var init := docs[..|docs| - 1];
      assert forall i :: 0 <= i < |init| ==> init[i] == docs[i];
      PassIsFixed(t, languageId, init);
    }
  }

  /** Triggering the same documents twice is the same as once; hence the
      second pass of `activate` changes nothing. */
  lemma TriggeredAllIdempotent(s: LinterState, languageId: string, docs: seq<Document>)
    ensures TriggeredAll(TriggeredAll(s, languageId, docs), languageId, docs) == TriggeredAll(s, languageId, docs)
  {
    TriggeredAllKeepsDelayers(s, languageId, docs);
    PassIsFixed(TriggeredAll(s, languageId, docs), languageId, docs);
  }

  lemma ActivatedIsOneLoad(languageId: string, defaults: LinterOptions, c: LinterSettings, docs: seq<Document>)
    ensures Activated(languageId, defaults, c, docs) == Reload(Constructed, languageId, defaults, c, docs)
    ensures !Activated(languageId, defaults, c, docs).executableNotFound
  {
    TriggeredAllIdempotent(Configured(Constructed, defaults, c), languageId, docs);
  }

  /** The close listener. */
  function Closed(s: LinterState, uri: string): (r: LinterState)
    ensures uri !in r.diagnostics && uri !in r.delayers
    ensures r.diagnostics.Keys == s.diagnostics.Keys - {uri} && r.delayers.Keys == s.delayers.Keys - {uri}
    ensures forall k :: k in r.diagnostics ==> r.diagnostics[k] == s.diagnostics[k]
    ensures forall k :: k in r.delayers ==> r.delayers[k] == s.delayers[k]
    ensures r.(delayers := s.delayers, diagnostics := s.diagnostics) == s
  {
    s.(diagnostics := s.diagnostics - {uri}, delayers := s.delayers - {uri})
  }

  /** The information message of the error listener of a run of
      `executable` for `doc`, or `None` when the executable is already known
      to be missing. */
  function SpawnReport(s: LinterState, languageId: string, doc: Document, err: SpawnFailure, executable: string): (m: Option<string>)
    ensures m.None? <==> s.executableNotFound
    ensures m.Some? && err.code == "ENOENT" ==>
              m.value == "Cannot lint " + doc.fileName + ". The executable was not found. Use the '" + languageId
                         + ".executablePath' setting to configure the location of the executable"
    ensures m.Some? && err.code != "ENOENT" && err.message != "" ==> m.value == err.message
    ensures m.Some? && err.code != "ENOENT" && err.message == "" ==>
              m.value == "Failed to run executable using path: " + executable + ". Reason is unknown."
  {
    if s.executableNotFound then None
    else if err.code == "ENOENT" then
      Some("Cannot lint " + doc.fileName + ". The executable was not found. Use the '" + languageId
           + ".executablePath' setting to configure the location of the executable")
    else if err.message != "" then Some(err.message)
    else Some("Failed to run executable using path: " + executable + ". Reason is unknown.")
  }

  function SpawnFailed(s: LinterState): (r: LinterState)
    ensures r.executableNotFound
    ensures s.executableNotFound ==> r == s
    ensures r.(executableNotFound := s.executableNotFound) == s
  {
    s.(executableNotFound := true)
  }

  /** What `doLint` spawns: the configured executable as it is (there is no
      fallback name); on save the file name follows the file arguments,
      otherwise the buffer arguments are used and stdin gets the text. */
  function PlannedInvocation(s: LinterState, doc: Document, rootPath: Option<string>): (inv: Invocation)
    ensures inv.executable == s.executable && inv.cwd == SpawnCwd(rootPath)
    ensures s.runTrigger == OnSave ==>
              |inv.args| == |s.fileArgs| + 1 + |s.extraArgs| && inv.args[..|s.fileArgs|] == s.fileArgs &&
              inv.args[|s.fileArgs|] == doc.fileName && inv.args[|s.fileArgs| + 1..] == s.extraArgs
    ensures s.runTrigger != OnSave ==>
              |inv.args| == |s.bufferArgs| + |s.extraArgs| && inv.args[..|s.bufferArgs|] == s.bufferArgs &&
              inv.args[|s.bufferArgs|..] == s.extraArgs
    ensures inv.stdin.Some? <==> s.runTrigger == OnType
    ensures inv.stdin.Some? ==> inv.stdin.value == doc.text
  {
    var args := (if s.runTrigger == OnSave then s.fileArgs + [doc.fileName] else s.bufferArgs) + s.extraArgs;
    assert s.runTrigger == OnSave ==> (s.fileArgs + [doc.fileName] + s.extraArgs)[|s.fileArgs| + 1..] == s.extraArgs;
    Invocation(s.executable, args, SpawnCwd(rootPath), if s.runTrigger == OnType then Some(doc.text) else None)
  }

  /** `processLine` of the base class returns `undefined`. */
  function ProcessLine(line: Option<string>): (d: Option<Diagnostic>)
    ensures d.None?
  {
    None
  }

  /** What line mode publishes: one `processLine` result per logged line. */
  function LineResults(lines: seq<Option<string>>): (ds: seq<Option<Diagnostic>>)
    ensures |ds| == |lines| && forall i :: 0 <= i < |ds| ==> ds[i].None?
  {
    seq(|lines|, i requires 0 <= i < |lines| => ProcessLine(lines[i]))
  }

  /** A diagnostics array as published. */
  function Present(ds: seq<Diagnostic>): (r: seq<Option<Diagnostic>>)
    ensures |r| == |ds| && forall i :: 0 <= i < |ds| ==> r[i] == Some(ds[i])
  {
    seq(|ds|, i requires 0 <= i < |ds| => Some(ds[i]))
  }

  /** The stdout end handler for the decoder's log `lines`: line mode
      publishes the `processLine` results; all mode publishes what
      `processAll` returns, or nothing when it throws. */
  function Finished(s: LinterState, uri: string, lines: seq<Option<string>>,
                    processAll: seq<Option<string>> -> Result<seq<Diagnostic>>): (r: LinterState)
    ensures r.(diagnostics := s.diagnostics) == s
    ensures s.processTrigger == Line ==> r.diagnostics == s.diagnostics[uri := LineResults(lines)]
    ensures s.processTrigger == All && processAll(lines).Throws? ==> r == s
    ensures s.processTrigger == All && processAll(lines).Ok? ==>
              r.diagnostics == s.diagnostics[uri := Present(processAll(lines).value)]
  {
    if s.processTrigger == Line then s.(diagnostics := s.diagnostics[uri := LineResults(lines)])
    else
      var processed := processAll(lines);
      if processed.Throws? then s else s.(diagnostics := s.diagnostics[uri := Present(processed.value)])
  }

  /** In line mode nothing the linter prints reaches the editor: the entry
      holds only `undefined` values, one per logged line. */
  lemma LineModePublishesNothing(s: LinterState, uri: string, chunks: seq<string>,
                                 processAll: seq<Option<string>> -> Result<seq<Diagnostic>>)
    requires s.processTrigger == Line
    ensures var r := Finished(s, uri, LogAfterEnd(chunks), processAll).diagnostics[uri];
            |r| == |chunks| + 1 && forall i :: 0 <= i < |r| ==> r[i].None?
  {
    LogLength(chunks);
  }

  class LintingProvider {
    var executable: string
    var fileArgs: seq<string>
    var bufferArgs: seq<string>
    var extraArgs: seq<string>
    var runTrigger: RunTrigger
    var processTrigger: ProcessTrigger
    var executableNotFound: bool
    var delayers: map<string, nat>
    var diagnostics: map<string, seq<Option<Diagnostic>>>
    const languageId: string
    const defaultOptions: LinterOptions
    const ignoreSeverity: bool

    function State(): LinterState
      reads this
    {
      LinterState(executable, fileArgs, bufferArgs, extraArgs, runTrigger, processTrigger,
                  executableNotFound, delayers, diagnostics)
    }

    /** The base constructor, the subclass constructor's `languageId` and
        `defaultOptions`, and `activate`. */
    constructor(languageId: string, defaults: LinterOptions, c: LinterSettings, openDocs: seq<Document>)
      ensures this.languageId == languageId && defaultOptions == defaults && !ignoreSeverity
      ensures State() == Activated(languageId, defaults, c, openDocs)
    {
      executable := "";
      executableNotFound := false;
      runTrigger := OnSave;
      processTrigger := All;
      extraArgs := [];
      fileArgs := [];
      bufferArgs := [];
      delayers := map[];
      diagnostics := map[];
      ignoreSeverity := false;
      this.languageId := languageId;
      defaultOptions := defaults;
      new;
      LoadConfiguration(c, openDocs);
      TriggerAll(openDocs);
    }

    method LoadConfiguration(c: LinterSettings, openDocs: seq<Document>)
      modifies this
      ensures State() == Reload(old(State()), languageId, defaultOptions, c, openDocs)
    {
      var oldExecutable := executable;
      executable := c.executablePath.GetOr(defaultOptions.executable);
      fileArgs := c.fileArgs.GetOr(defaultOptions.fileArgs);
      bufferArgs := c.bufferArgs.GetOr(defaultOptions.bufferArgs);
      runTrigger := RunTriggerFrom(c.run.GetOr(defaultOptions.runTrigger));
      processTrigger := ProcessTriggerFrom(c.process.GetOr(defaultOptions.processTrigger));
      extraArgs := c.args.GetOr(defaultOptions.extraArgs);
      delayers := map[];
      if executableNotFound {
        executableNotFound := oldExecutable == executable;
      }
      ghost var configured := State();
      assert configured == Configured(old(State()), defaultOptions, c);
      TriggerAll(openDocs);
      assert State() == TriggeredAll(configured, languageId, openDocs);
    }

    method TriggerAll(docs: seq<Document>)
      modifies this
      ensures State() == TriggeredAll(old(State()), languageId, docs)
    {
      for i := 0 to |docs|
        invariant State() == TriggeredAll(old(State()), languageId, docs[..i])
      {
        assert docs[..i + 1][..i] == docs[..i];
        var _ := TriggerLint(docs[i]);
      }
      assert docs[..|docs|] == docs;
    }

    method TriggerLint(doc: Document) returns (scheduled: bool)
      modifies this
      ensures State() == Triggered(old(State()), languageId, doc)
      ensures scheduled == Lints(old(State()), languageId, doc)
    {
      if doc.languageId != languageId || executableNotFound || runTrigger == Off {
        return false;
      }
      if doc.uri !in delayers {
        delayers := delayers[doc.uri := Delay(runTrigger)];
      }
      scheduled := true;
    }

    method Close(uri: string)
      modifies this
      ensures State() == Closed(old(State()), uri)
    {
      diagnostics := diagnostics - {uri};
      delayers := delayers - {uri};
    }

    method PlanRun(doc: Document, rootPath: Option<string>) returns (inv: Invocation)
      ensures inv == PlannedInvocation(State(), doc, rootPath)
    {
      var args: seq<string>;
      if runTrigger == OnSave {
        args := fileArgs + [doc.fileName];
      } else {
        args := bufferArgs;
      }
      args := args + extraArgs;
      inv := Invocation(executable, args, SpawnCwd(rootPath), if runTrigger == OnType then Some(doc.text) else None);
    }

    /** The spawn error listener of a run of `executable` for `doc`;
        `shown` is the information message. */
    method SpawnError(doc: Document, err: SpawnFailure, executable: string) returns (shown: Option<string>)
      modifies this
      ensures State() == SpawnFailed(old(State()))
      ensures shown == SpawnReport(old(State()), languageId, doc, err, executable)
    {
      if executableNotFound {
        return None;
      }
      var message: string;
      if err.code == "ENOENT" {
        message := "Cannot lint " + doc.fileName + ". The executable was not found. Use the '" + languageId
                   + ".executablePath' setting to configure the location of the executable";
      } else {
        message := if err.message != "" then err.message else "Failed to run executable using path: " + executable + ". Reason is unknown.";
      }
      shown := Some(message);
      executableNotFound := true;
    }

    /** Line mode of the end handler: `processLine` of every logged line. */
    method PublishLines(uri: string, lines: seq<Option<string>>)
      modifies this
      ensures State() == old(State()).(diagnostics := old(diagnostics)[uri := LineResults(lines)])
    {
      var found: seq<Option<Diagnostic>> := [];
      for i := 0 to |lines|
        invariant found == LineResults(lines[..i])
      {
        found := found + [ProcessLine(lines[i])];
      }
      assert lines[..|lines|] == lines;
      diagnostics := diagnostics[uri := found];
    }

    /** All mode of the end handler, given what `processAll` did. */
    method PublishAll(uri: string, processed: Result<seq<Diagnostic>>)
      modifies this
      ensures processed.Throws? ==> State() == old(State())
      ensures processed.Ok? ==> State() == old(State()).(diagnostics := old(diagnostics)[uri := Present(processed.value)])
    {
      if processed.Ok? {
        diagnostics := diagnostics[uri := Present(processed.value)];
      }
    }
  }
}
