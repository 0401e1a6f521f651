/** The specification of the line decoders: how a stream of text is cut into
    lines at runs of CR/LF, how the cut of one chunk continues the cut of
    the chunks before it, and what the lines join back to. */
module LineSplit {
  import opened Wrappers
  import opened Text

  /** Complete lines found so far, and the unterminated tail. */
  datatype Split = Split(lines: seq<string>, rest: string)

  /** `ls` followed by the lines of `sp`. */
  function Prepend(ls: seq<string>, sp: Split): Split {
    Split(ls + sp.lines, sp.rest)
  }

  /** Scans `s` when `cur` is the part of the current line already read:
      a line is complete when a CR or LF follows it, and an empty line is
      never produced. */
  function Scan(cur: string, s: string): (r: Split)
    requires BreakFree(cur)
    ensures BreakFree(r.rest)
    ensures forall k :: 0 <= k < |r.lines| ==> r.lines[k] != [] && BreakFree(r.lines[k])
    decreases |s|
  {
    if s == [] then Split([], cur)
    else if IsBreak(s[0]) then
      var t := Scan([], s[1..]);
      if cur == [] then t else Prepend([cur], t)
    else
      assert BreakFree(cur + [s[0]]) by {
        forall i | 0 <= i < |cur + [s[0]]| ensures !IsBreak((cur + [s[0]])[i]) {
          if i < |cur| { assert (cur + [s[0]])[i] == cur[i]; }
        }
      }
      Scan(cur + [s[0]], s[1..])
  }

  /** A line break with no line in hand is skipped. */
  lemma ScanSkipBreak(s: string)
    requires s != [] && IsBreak(s[0])
    ensures Scan([], s) == Scan([], s[1..])
  {
  }

  /** A line break completes the line in hand. */
  lemma ScanEndLine(cur: string, s: string)
    requires BreakFree(cur) && cur != [] && s != [] && IsBreak(s[0])
    ensures Scan(cur, s) == Prepend([cur], Scan([], s[1..]))
  {
  }

  /** Any other character extends the line in hand. */
  lemma ScanExtend(cur: string, s: string)
    requires BreakFree(cur) && s != [] && !IsBreak(s[0])
    ensures BreakFree(cur + [s[0]])
    ensures Scan(cur, s) == Scan(cur + [s[0]], s[1..])
  {
  }

  /** Every line of a whole stream, the trailing unterminated one included. */
  function Lines(s: string): seq<string> {
    var sp := Scan([], s);
    sp.lines + (if sp.rest == [] then [] else [sp.rest])
  }

  /** Continues a scan that stopped at `sp` with more text `b`. */
  function Continue(sp: Split, b: string): Split
    requires BreakFree(sp.rest)
  {
    Prepend(sp.lines, Scan(sp.rest, b))
  }

  /** Scanning a concatenation is scanning its first part and continuing
      with its second: where the text is cut into chunks does not matter. */
  lemma {:induction false} ScanAppend(cur: string, a: string, b: string)
    requires BreakFree(cur)
    ensures Scan(cur, a + b) == Continue(Scan(cur, a), b)
    decreases |a|
  {
    if a == [] {
      assert a + b == b;
    } else {
      assert (a + b)[0] == a[0];
      assert (a + b)[1..] == a[1..] + b;
      if IsBreak(a[0]) {
        ScanAppend([], a[1..], b);
      } else {
        ScanAppend(cur + [a[0]], a[1..], b);
      }
    }
  }

  /** Text without line breaks only extends the current line. */
  lemma {:induction false} ScanBreakFree(cur: string, s: string)
    requires BreakFree(cur) && BreakFree(s)
    ensures Scan(cur, s) == Split([], cur + s)
    decreases |s|
  {
    if s == [] {
      assert cur + s == cur;
    } else {
      assert !IsBreak(s[0]);
      assert BreakFree(s[1..]) by {
        forall i | 0 <= i < |s[1..]| ensures !IsBreak(s[1..][i]) {
          assert s[1..][i] == s[i + 1];
        }
      }
      ScanBreakFree(cur + [s[0]], s[1..]);
      assert (cur + [s[0]]) + s[1..] == cur + s;
    }
  }

  /** Joining the lines back together gives the text read so far with every
      CR and LF deleted. */
  lemma {:induction false} ScanJoin(cur: string, s: string)
    requires BreakFree(cur)
    ensures Join(Scan(cur, s).lines) + Scan(cur, s).rest == cur + Strip(s)
    decreases |s|
  {
    if s == [] {
      assert Join([]) == "";
    } else if IsBreak(s[0]) {
      ScanJoin([], s[1..]);
      ScanJoinBreak(cur, s);
    } else {
      ScanJoin(cur + [s[0]], s[1..]);
      ScanJoinOther(cur, s);
    }
  }

  lemma {:induction false} ScanJoinBreak(cur: string, s: string)
    requires BreakFree(cur) && s != [] && IsBreak(s[0])
    requires Join(Scan([], s[1..]).lines) + Scan([], s[1..]).rest == Strip(s[1..])
    ensures Join(Scan(cur, s).lines) + Scan(cur, s).rest == cur + Strip(s)
  {
    var t := Scan([], s[1..]);
    var j := Join(t.lines);
    assert Strip(s) == Strip(s[1..]);
    if cur == [] {
      assert Scan(cur, s) == t;
      assert cur + Strip(s) == Strip(s);
    } else {
      assert Scan(cur, s) == Prepend([cur], t);
      JoinCons(cur, t.lines);
      assert Join([cur] + t.lines) + t.rest == cur + (j + t.rest);
    }
  }

  lemma {:induction false} ScanJoinOther(cur: string, s: string)
    requires BreakFree(cur) && s != [] && !IsBreak(s[0])
    requires BreakFree(cur + [s[0]])
    requires Join(Scan(cur + [s[0]], s[1..]).lines) + Scan(cur + [s[0]], s[1..]).rest == (cur + [s[0]]) + Strip(s[1..])
    ensures Join(Scan(cur, s).lines) + Scan(cur, s).rest == cur + Strip(s)
  {
    assert Scan(cur, s) == Scan(cur + [s[0]], s[1..]);
    assert Strip(s) == [s[0]] + Strip(s[1..]);
    assert (cur + [s[0]]) + Strip(s[1..]) == cur + ([s[0]] + Strip(s[1..]));
  }

  // An independent reference: cut at EVERY single CR or LF, as
  // `s.split(/[\r\n]/)` would, and then drop the empty pieces.

  /** Index of the first CR or LF of `s`, or `|s|` when there is none. */
  function FirstBreak(s: string): (i: nat)
    ensures i <= |s|
    ensures i < |s| ==> IsBreak(s[i])
    ensures forall j :: 0 <= j < i ==> !IsBreak(s[j])
  {
    if s == [] then 0
    else if IsBreak(s[0]) then 0
    else 1 + FirstBreak(s[1..])
  }

  /** The pieces of `s` between single line-break characters, empty pieces
      included. */
  function Pieces(s: string): (r: seq<string>)
    ensures |r| > 0
    decreases |s|
  {
    var i := FirstBreak(s);
    if i == |s| then [s] else [s[..i]] + Pieces(s[i + 1..])
  }

  function NonEmpty(ls: seq<string>): seq<string> {
    if ls == [] then []
    else (if ls[0] == [] then [] else [ls[0]]) + NonEmpty(ls[1..])
  }

  lemma {:induction false} NonEmptyAppend(a: seq<string>, b: seq<string>)
    ensures NonEmpty(a + b) == NonEmpty(a) + NonEmpty(b)
    decreases |a|
  {
    if a == [] {
      assert a + b == b;
    } else {
      assert (a + b)[0] == a[0];
      assert (a + b)[1..] == a[1..] + b;
      NonEmptyAppend(a[1..], b);
    }
  }

  /** The lines of a scan that has `cur` in hand, continued to the end. */
  function LinesFrom(cur: string, s: string): seq<string>
    requires BreakFree(cur)
  {
    var sp := Scan(cur, s);
    sp.lines + (if sp.rest == [] then [] else [sp.rest])
  }

  /** Up to the first CR or LF, a scan only extends the current line. */
  lemma ScanToFirstBreak(cur: string, s: string)
    requires BreakFree(cur)
    ensures BreakFree(cur + s[..FirstBreak(s)])
    ensures Scan(cur, s) == Scan(cur + s[..FirstBreak(s)], s[FirstBreak(s)..])
  {
    var i := FirstBreak(s);
    var head := s[..i];
    assert BreakFree(head) by {
      forall j | 0 <= j < |head| ensures !IsBreak(head[j]) { assert head[j] == s[j]; }
    }
    var c := cur + head;
    assert BreakFree(c) by {
      forall j | 0 <= j < |c| ensures !IsBreak(c[j]) {
        if j < |cur| { assert c[j] == cur[j]; } else { assert c[j] == head[j - |cur|]; }
      }
    }
    assert s == head + s[i..];
    ScanAppend(cur, head, s[i..]);
    ScanBreakFree(cur, head);
  }

  lemma NonEmptyCons(c: string, ls: seq<string>)
    ensures NonEmpty([c] + ls) == (if c == [] then [] else [c]) + NonEmpty(ls)
  {
    NonEmptyAppend([c], ls);
    assert [c][1..] == [];
  }

  lemma {:induction false} LinesFromPieces(cur: string, s: string)
    requires BreakFree(cur)
    ensures LinesFrom(cur, s) == NonEmpty([cur + Pieces(s)[0]] + Pieces(s)[1..])
    decreases |s|
  {
    var i := FirstBreak(s);
    var c := cur + s[..i];
    ScanToFirstBreak(cur, s);
    if i == |s| {
      assert s[i..] == [] && s[..i] == s;
      NonEmptyCons(c, []);
    } else {
      var tail := s[i + 1..];
      assert s[i..][0] == s[i] && s[i..][1..] == tail;
      LinesFromPieces([], tail);
      assert Pieces(s) == [s[..i]] + Pieces(tail);
      assert [] + Pieces(tail)[0] == Pieces(tail)[0];
      assert [Pieces(tail)[0]] + Pieces(tail)[1..] == Pieces(tail);
      NonEmptyCons(c, Pieces(tail));
      var t := Scan([], tail);
      assert Scan(c, s[i..]) == (if c == [] then t else Prepend([c], t));
    }
  }

  /** The decoder's lines are exactly the non-empty pieces between single
      CR/LF characters, that is, the maximal runs without CR or LF. */
  lemma LinesAreNonEmptyPieces(s: string)
    ensures Lines(s) == NonEmpty(Pieces(s))
  {
    LinesFromPieces([], s);
    assert [] + Pieces(s)[0] == Pieces(s)[0];
    assert [Pieces(s)[0]] + Pieces(s)[1..] == Pieces(s);
  }

  /** A stream made of line breaks only has no lines at all. */
  lemma {:induction false} OnlyBreaksNoLines(s: string)
    requires forall i :: 0 <= i < |s| ==> IsBreak(s[i])
    ensures Lines(s) == []
    decreases |s|
  {
    if s != [] {
      OnlyBreaksNoLines(s[1..]);
    }
  }

  // ---- The decoder as a function of its pending remainder ----

  /** `remaining` of a LineDecoder: null, or a non-empty partial line. */
  predicate ValidRemaining(rem: Option<string>) {
    rem.Some? ==> rem.value != [] && BreakFree(rem.value)
  }

  /** The text `this.remaining` contributes to the next `value`. */
  function Pending(rem: Option<string>): string {
    if rem.Some? then rem.value else ""
  }

  /** `start < value.length ? value.substr(start) : null`. */
  function Tail(rest: string): Option<string> {
    if rest == [] then None else Some(rest)
  }

  /** What `end()` contributes to `decoded.concat(decoder.end()).join('')`:
      concatenating null adds an element that join renders as "". */
  function Flush(rem: Option<string>): seq<string> {
    if rem.Some? then [rem.value] else []
  }

  /** The lines a decoder returns and the remainder it keeps. */
  datatype Decoded = Decoded(lines: seq<string>, remaining: Option<string>)

  /** One `write(chunk)` of a decoder whose remainder is `rem`. */
  function WriteSpec(rem: Option<string>, chunk: string): (d: Decoded)
    requires ValidRemaining(rem)
    ensures ValidRemaining(d.remaining)
    ensures forall k :: 0 <= k < |d.lines| ==> d.lines[k] != [] && BreakFree(d.lines[k])
  {
    var sp := Scan([], Pending(rem) + chunk);
    Decoded(sp.lines, Tail(sp.rest))
  }

  /** Every write of a fresh decoder over `chunks`, in order: all lines
      returned, and the remainder at the end. */
  function FeedAll(chunks: seq<string>): (d: Decoded)
    ensures ValidRemaining(d.remaining)
  {
    if chunks == [] then Decoded([], None)
    else
      var before := FeedAll(chunks[..|chunks| - 1]);
      var step := WriteSpec(before.remaining, chunks[|chunks| - 1]);
      Decoded(before.lines + step.lines, step.remaining)
  }

  /** Scanning a pending partial line followed by more text is continuing
      the line. */
  lemma ScanFromPending(p: string, b: string)
    requires BreakFree(p)
    ensures Scan([], p + b) == Scan(p, b)
  {
    ScanAppend([], p, b);
    ScanBreakFree([], p);
    assert [] + p == p;
    assert Split([], p).lines == [];
  }

  /** A write continues the scan of everything written before it. */
  lemma {:induction false} FeedAllScans(chunks: seq<string>)
    ensures FeedAll(chunks) == Decoded(Scan([], Join(chunks)).lines, Tail(Scan([], Join(chunks)).rest))
  {
    if chunks != [] {
      var init := chunks[..|chunks| - 1];
      var last := chunks[|chunks| - 1];
      FeedAllScans(init);
      var whole := Scan([], Join(init));
      var p := Pending(FeedAll(init).remaining);
      assert p == whole.rest;
      ScanFromPending(p, last);
      assert Join(chunks) == Join(init) + last;
      ScanAppend([], Join(init), last);
    }
  }

  /** Chunk independence: the lines written over any cut of a stream into
      chunks, followed by what `end()` flushes, are the lines of the whole
      stream. */
  lemma ChunkIndependence(chunks: seq<string>)
    ensures FeedAll(chunks).lines + Flush(FeedAll(chunks).remaining) == Lines(Join(chunks))
  {
    FeedAllScans(chunks);
  }

  /** `decoded.concat(decoder.end()).join('')` is the stream with every CR
      and LF deleted. */
  lemma JoinedOutputIsStripped(chunks: seq<string>)
    ensures Join(FeedAll(chunks).lines + Flush(FeedAll(chunks).remaining)) == Strip(Join(chunks))
  {
    FeedAllScans(chunks);
    var sp := Scan([], Join(chunks));
    ScanJoin([], Join(chunks));
    JoinAppend(sp.lines, Flush(Tail(sp.rest)));
    if sp.rest != [] { JoinSingle(sp.rest); } else { assert Join([]) == ""; }
  }
}
