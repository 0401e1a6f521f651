/** The incremental line decoders. `LineDecoder` is the copy used by the
    hlint and validation providers; `LoggingLineDecoder` is the copy of the
    generic linting provider, which also keeps a log of every text it saw.
    Chunks arrive already decoded from UTF-8. */
module LineDecoding {
  import opened Wrappers
  import opened Text
  import opened LineSplit

  /** The two loops of `write` that step over a run of CR/LF characters:
      the first character at or after `from` that is not a line break, or
      the end. A scan with no line in hand ignores the run. */
  method SkipBreaks(value: string, from: nat) returns (idx: nat)
    requires from <= |value|
    ensures from <= idx <= |value|
    ensures idx == |value| || !IsBreak(value[idx])
    ensures forall j :: from <= j < idx ==> IsBreak(value[j])
    ensures Scan([], value[from..]) == Scan([], value[idx..])
  {
    idx := from;
    while idx < |value| && IsBreak(value[idx])
      invariant from <= idx <= |value|
      invariant forall j :: from <= j < idx ==> IsBreak(value[j])
      invariant Scan([], value[from..]) == Scan([], value[idx..])
    {
      ScanSkipBreak(value[idx..]);
      assert value[idx..][1..] == value[idx + 1..];
      idx := idx + 1;
    }
  }

  /** A line break after the line in hand `value[start..idx]` completes it. */
  lemma {:induction false} EndLineStep(value: string, start: nat, idx: nat, result: seq<string>)
    requires start < idx < |value| && BreakFree(value[start..idx]) && IsBreak(value[idx])
    requires Scan([], value) == Prepend(result, Scan(value[start..idx], value[idx..]))
    ensures Scan([], value) == Prepend(result + [value[start..idx]], Scan([], value[idx + 1..]))
  {
    var cur := value[start..idx];
    var rest := value[idx..];
    assert rest[0] == value[idx] && rest[1..] == value[idx + 1..];
    ScanEndLine(cur, rest);
    var more := Scan([], rest[1..]).lines;
    assert result + ([cur] + more) == (result + [cur]) + more;
  }

  /** Any other character extends the line in hand by one. */
  lemma {:induction false} ExtendStep(value: string, start: nat, idx: nat, result: seq<string>)
    requires start <= idx < |value| && BreakFree(value[start..idx]) && !IsBreak(value[idx])
    requires Scan([], value) == Prepend(result, Scan(value[start..idx], value[idx..]))
    ensures BreakFree(value[start..idx + 1])
    ensures Scan([], value) == Prepend(result, Scan(value[start..idx + 1], value[idx + 1..]))
  {
    var cur := value[start..idx];
    var rest := value[idx..];
    var next := value[start..idx + 1];
    assert rest[0] == value[idx] && rest[1..] == value[idx + 1..];
    assert next == cur + [rest[0]];
    ScanExtend(cur, rest);
    assert Scan(cur, rest) == Scan(next, value[idx + 1..]);
  }

  /** The loops of `write`: skip leading line breaks, then cut `value` after
      every maximal run of text without CR/LF that a break follows; the
      unterminated tail, if any, is kept. */
  method SplitValue(value: string) returns (result: seq<string>, tail: Option<string>)
    ensures Decoded(result, tail) == Decoded(Scan([], value).lines, Tail(Scan([], value).rest))
  {
    result := [];
    var start := SkipBreaks(value, 0);
    assert value[0..] == value;
    var idx := start;
    assert value[start..idx] == [];
    assert Scan([], value) == Prepend(result, Scan(value[start..idx], value[idx..]));
    while idx < |value|
      invariant start <= idx <= |value|
      invariant BreakFree(value[start..idx])
      invariant start == idx ==> idx == |value| || !IsBreak(value[idx])
      invariant Scan([], value) == Prepend(result, Scan(value[start..idx], value[idx..]))
    {
      if IsBreak(value[idx]) {
        EndLineStep(value, start, idx, result);
        result := result + [value[start..idx]];
        idx := SkipBreaks(value, idx + 1);
        start := idx;
        assert value[start..idx] == [];
      } else {
        ExtendStep(value, start, idx, result);
        idx := idx + 1;
      }
    }
    assert value[idx..] == [] && value[start..] == value[start..idx];
    assert result + [] == result;
    tail := if start < |value| then Some(value[start..]) else None;
  }

  /** The decoder of src/features/hlintProvider.ts and
      src/features/validationProvider.ts. */
  class LineDecoder {
    /** A partial line waiting for its line break, or null. */
    var remaining: Option<string>

    ghost predicate Valid()
      reads this
    {
      ValidRemaining(remaining)
    }

    constructor()
      ensures Valid() && remaining == None
    {
      remaining := None;
    }

    /** Returns the lines completed by `chunk`; none is empty or holds CR/LF,
        and the remainder stays null or a non-empty partial line. */
    method Write(chunk: string) returns (result: seq<string>)
      requires Valid()
      modifies this
      ensures Valid()
      ensures Decoded(result, remaining) == WriteSpec(old(remaining), chunk)
    {
      var value := if remaining.Some? then remaining.value + chunk else chunk;
      assert value == Pending(remaining) + chunk;
      result := [];
      if |value| < 1 {
        assert remaining == None && value == [];
        return;
      }
      var tail;
      result, tail := SplitValue(value);
      remaining := tail;
    }

    /** The pending partial line, or null. */
    method End() returns (r: Option<string>)
      requires Valid()
      ensures r == remaining
      ensures r.Some? ==> r.value != [] && BreakFree(r.value)
    {
      r := remaining;
    }
  }

  /** The decoder of src/features/utils/lintingProvider.ts: the same cut,
      plus a log `lines` of every `value` written and of what `end()` saw. */
  class LoggingLineDecoder {
    var remaining: Option<string>
    var lines: seq<Option<string>>

    ghost predicate Valid()
      reads this
    {
      ValidRemaining(remaining)
    }

    constructor()
      ensures Valid() && remaining == None && lines == []
    {
      remaining := None;
      lines := [];
    }

    /** Cuts like `LineDecoder.Write`, and logs the whole `value`: the pending
        remainder followed by the new chunk. */
    method Write(chunk: string) returns (result: seq<string>)
      requires Valid()
      modifies this
      ensures Valid()
      ensures Decoded(result, remaining) == WriteSpec(old(remaining), chunk)
      ensures lines == old(lines) + [Some(Pending(old(remaining)) + chunk)]
    {
      var value := if remaining.Some? then remaining.value + chunk else chunk;
      assert value == Pending(remaining) + chunk;
      result := [];
      if |value| < 1 {
        assert remaining == None && value == [];
        lines := lines + [Some(value)];
        return;
      }
      var tail;
      result, tail := SplitValue(value);
      remaining := tail;
      lines := lines + [Some(value)];
    }

    /** Logs the remainder (possibly null) once more and returns it in a
        one-element array. */
    method End() returns (r: seq<Option<string>>)
      modifies this
      ensures r == [remaining] && remaining == old(remaining)
      ensures lines == old(lines) + [remaining]
    {
      lines := lines + [remaining];
      r := [remaining];
    }

    /** `getLines()`: the log, one entry per `Write` and one for `End`. */
    function GetLines(): (r: seq<Option<string>>)
      reads this
      ensures r == lines
    {
      lines
    }
  }

  /** The stdout handlers of the hlint and validation providers: the chunks
      go through one fresh decoder, the returned lines are collected, and on
      end `decoded.concat(decoder.end()).join('')` is the output. */
  method AssembleOutput(chunks: seq<string>) returns (output: string)
    ensures output == Strip(Join(chunks))
  {
    var decoder := new LineDecoder();
    var decoded: seq<string> := [];
    for i := 0 to |chunks|
      invariant decoder.Valid()
      invariant Decoded(decoded, decoder.remaining) == FeedAll(chunks[..i])
    {
      assert chunks[..i + 1][..i] == chunks[..i];
      var lines := decoder.Write(chunks[i]);
      decoded := decoded + lines;
    }
    var last := decoder.End();
    // concatenating a null remainder adds an element that join renders as ""
    output := Join(decoded + Flush(last));
    assert chunks[..|chunks|] == chunks;
    JoinedOutputIsStripped(chunks);
  }

  // ---- The log of the linting provider's decoder ----

  /** Each log entry as `join` renders it: a null entry as "". */
  function Rendered(ls: seq<Option<string>>): (r: seq<string>)
    ensures |r| == |ls|
    ensures forall i :: 0 <= i < |ls| ==> r[i] == Pending(ls[i])
  {
    seq(|ls|, i requires 0 <= i < |ls| => Pending(ls[i]))
  }

  /** `lines.join('')`: the concatenation of the entries, a null entry
      contributing nothing. */
  function JoinLog(ls: seq<Option<string>>): (r: string)
    ensures r == Join(Rendered(ls))
    ensures (forall i :: 0 <= i < |ls| ==> ls[i].None?) ==> r == ""
  {
    if ls == [] then ""
    else
      var init := ls[..|ls| - 1];
      assert Rendered(ls)[..|ls| - 1] == Rendered(init);
      JoinLog(init) + Pending(ls[|ls| - 1])
  }

  /** The log after writing every chunk to a fresh decoder. */
  function Log(chunks: seq<string>): (log: seq<Option<string>>)
    ensures |log| == |chunks|
  {
    if chunks == [] then []
    else
      var init := chunks[..|chunks| - 1];
      Log(init) + [Some(Pending(FeedAll(init).remaining) + chunks[|chunks| - 1])]
  }

  /** `getLines()` after the writes and `end()`. */
  function LogAfterEnd(chunks: seq<string>): seq<Option<string>> {
    Log(chunks) + [FeedAll(chunks).remaining]
  }

  /** Writing chunk `i` after the first `i` extends the log by one entry and
      leaves the remainder of the longer prefix. */
  lemma LogPrefixStep(chunks: seq<string>, i: nat)
    requires i < |chunks|
    ensures Log(chunks[..i + 1]) == Log(chunks[..i]) + [Some(Pending(FeedAll(chunks[..i]).remaining) + chunks[i])]
    ensures FeedAll(chunks[..i + 1]).remaining == WriteSpec(FeedAll(chunks[..i]).remaining, chunks[i]).remaining
  {
    assert chunks[..i + 1][..i] == chunks[..i];
  }

  /** The stdout handlers of the linting provider: write every chunk, call
      `end()`, and hand `getLines()` on. */
  method AssembleLog(chunks: seq<string>) returns (lines: seq<Option<string>>)
    ensures lines == LogAfterEnd(chunks)
    ensures |lines| == |chunks| + 1
  {
    var decoder := new LoggingLineDecoder();
    for i := 0 to |chunks|
      invariant decoder.Valid()
      invariant decoder.remaining == FeedAll(chunks[..i]).remaining
      invariant decoder.lines == Log(chunks[..i])
    {
      LogPrefixStep(chunks, i);
      var _ := decoder.Write(chunks[i]);
    }
    var _ := decoder.End();
    lines := decoder.GetLines();
    assert chunks[..|chunks|] == chunks;
  }

  /** The sum of `f` over the non-empty prefixes of `chunks`. */
  function PrefixSum(chunks: seq<string>, f: seq<string> -> nat): nat {
    if chunks == [] then 0
    else PrefixSum(chunks[..|chunks| - 1], f) + f(chunks)
  }

  lemma {:induction false} PrefixSumZero(chunks: seq<string>, f: seq<string> -> nat)
    ensures PrefixSum(chunks, f) == 0 <==> forall k :: 1 <= k <= |chunks| ==> f(chunks[..k]) == 0
  {
    if chunks != [] {
      var n := |chunks|;
      var init := chunks[..n - 1];
      PrefixSumZero(init, f);
      assert chunks[..n] == chunks;
      forall k | 1 <= k <= |init| ensures init[..k] == chunks[..k] { }
    }
  }

  /** The length of the remainder left after writing every chunk. */
  function PendingLength(chunks: seq<string>): nat {
    |Pending(FeedAll(chunks).remaining)|
  }

  /** Total length of the remainders left after each write. */
  function PendingTotal(chunks: seq<string>): nat {
    PrefixSum(chunks, PendingLength)
  }

  lemma JoinLogAppend(a: seq<Option<string>>, b: seq<Option<string>>)
    ensures JoinLog(a + b) == JoinLog(a) + JoinLog(b)
  {
    assert Rendered(a + b) == Rendered(a) + Rendered(b);
    JoinAppend(Rendered(a), Rendered(b));
  }

  /** The logged text is the concatenated chunks plus one more copy of every
      remainder a write left pending. */
  lemma {:induction false} LogLength(chunks: seq<string>)
    ensures |JoinLog(LogAfterEnd(chunks))| == |Join(chunks)| + PendingTotal(chunks)
  {
    if chunks == [] {
      assert JoinLog([None]) == "";
    } else {
      var init := chunks[..|chunks| - 1];
      LogLength(init);
      JoinLogAppend(Log(init), [FeedAll(init).remaining]);
      JoinLogAppend(Log(chunks), [FeedAll(chunks).remaining]);
      assert [FeedAll(init).remaining][..0] == [];
      assert [FeedAll(chunks).remaining][..0] == [];
      assert Join(chunks) == Join(init) + chunks[|chunks| - 1];
    }
  }

  /** A write after which nothing was pending logs exactly its chunk. */
  lemma LogStepWithoutPending(chunks: seq<string>)
    requires chunks != [] && FeedAll(chunks[..|chunks| - 1]).remaining == None
    ensures Log(chunks) == Log(chunks[..|chunks| - 1]) + [Some(chunks[|chunks| - 1])]
  {
    var last := chunks[|chunks| - 1];
    assert Pending(None) + last == last;
  }

  lemma JoinLogSingle(x: string)
    ensures JoinLog([Some(x)]) == x
  {
    assert [Some(x)][..0] == [];
  }

  /** When no write leaves a partial line pending, the log joins to exactly
      the concatenated chunks. */
  lemma {:induction false} LogWithoutPending(chunks: seq<string>)
    requires forall k :: 1 <= k <= |chunks| ==> FeedAll(chunks[..k]).remaining == None
    ensures JoinLog(Log(chunks)) == Join(chunks)
  {
    if chunks != [] {
      var n := |chunks|;
      var init := chunks[..n - 1];
      forall k | 1 <= k <= |init| ensures FeedAll(init[..k]).remaining == None {
        assert init[..k] == chunks[..k];
      }
      LogWithoutPending(init);
      if n > 1 {
        assert chunks[..n - 1] == init;
        assert FeedAll(init).remaining == None;
      } else {
        assert init == [];
      }
      LogExtendsWithoutPending(chunks);
    }
  }

  /** The inductive step of `LogWithoutPending`. */
  lemma LogExtendsWithoutPending(chunks: seq<string>)
    requires chunks != [] && FeedAll(chunks[..|chunks| - 1]).remaining == None
    requires JoinLog(Log(chunks[..|chunks| - 1])) == Join(chunks[..|chunks| - 1])
    ensures JoinLog(Log(chunks)) == Join(chunks)
  {
    var init := chunks[..|chunks| - 1];
    var last := chunks[|chunks| - 1];
    LogStepWithoutPending(chunks);
    JoinLogAppend(Log(init), [Some(last)]);
    JoinLogSingle(last);
  }

  lemma NoPendingTotal(chunks: seq<string>)
    ensures PendingTotal(chunks) == 0 <==> forall k :: 1 <= k <= |chunks| ==> FeedAll(chunks[..k]).remaining == None
  {
    PrefixSumZero(chunks, PendingLength);
    forall k | 1 <= k <= |chunks|
      ensures PendingLength(chunks[..k]) == 0 <==> FeedAll(chunks[..k]).remaining == None
    {
      assert ValidRemaining(FeedAll(chunks[..k]).remaining);
    }
  }

  /** `getLines().join('')` equals the plain concatenation of the chunks
      exactly when no write leaves a partial line pending; otherwise each
      pending partial line appears twice. */
  lemma LogJoinIsConcatenation(chunks: seq<string>)
    ensures JoinLog(LogAfterEnd(chunks)) == Join(chunks)
        <==> forall k :: 1 <= k <= |chunks| ==> FeedAll(chunks[..k]).remaining == None
  {
    LogLength(chunks);
    NoPendingTotal(chunks);
    if forall k :: 1 <= k <= |chunks| ==> FeedAll(chunks[..k]).remaining == None {
      LogWithoutPending(chunks);
      JoinLogAppend(Log(chunks), [FeedAll(chunks).remaining]);
      assert chunks[..|chunks|] == chunks;
      assert FeedAll(chunks).remaining == None;
      assert [FeedAll(chunks).remaining][..0] == [];
    }
  }

  /** A pending partial line is logged again: as the head of the next write's
      value, or by `end()`. */
  lemma PendingLoggedAgain(chunks: seq<string>, next: string)
    requires FeedAll(chunks).remaining.Some?
    ensures Log(chunks + [next])[|chunks|] == Some(FeedAll(chunks).remaining.value + next)
    ensures LogAfterEnd(chunks)[|chunks|] == FeedAll(chunks).remaining
  {
    assert (chunks + [next])[..|chunks|] == chunks;
  }

  /** A one-chunk output with no final line break is logged twice, so the
      text handed to the JSON parser is "[][]" for the output "[]". */
  lemma OutputWithoutFinalBreakIsDoubled()
    ensures LogAfterEnd(["[]"]) == [Some("[]"), Some("[]")]
    ensures JoinLog(LogAfterEnd(["[]"])) == "[][]"
  {
    LogOfUnterminatedChunk();
    JoinLogAppend([Some("[]")], [Some("[]")]);
    JoinLogAppend([], [Some("[]")]);
  }

  /** A single chunk without a line break is logged, and then left pending. */
  lemma LogOfUnterminatedChunk()
    ensures LogAfterEnd(["[]"]) == [Some("[]"), Some("[]")]
  {
    var c: seq<string> := ["[]"];
    assert c[..0] == [];
    assert Pending(FeedAll([]).remaining) + "[]" == "[]";
    assert Scan([], "[]") == Split([], "[]");
    assert FeedAll(c).remaining == Some("[]");
  }

}
