/** String helpers with the meaning JavaScript gives them in the linter:
    CR/LF tests, ASCII lower-casing, `indexOf`, `replace` of the first
    occurrence, `join('')`, and the regular expression that extracts the
    replacement text of a suggestion. */
module Text {
  import opened Wrappers

  /** Character code 13 or 10. */
  predicate IsBreak(c: char) {
    c == '\r' || c == '\n'
  }

  predicate BreakFree(s: string) {
    forall i :: 0 <= i < |s| ==> !IsBreak(s[i])
  }

  /** `s` with every CR and LF deleted. */
  function Strip(s: string): (r: string)
    ensures BreakFree(r)
    ensures |r| <= |s|
    ensures BreakFree(s) ==> r == s
  {
    if s == [] then []
    else if IsBreak(s[0]) then Strip(s[1..])
    else [s[0]] + Strip(s[1..])
  }

  lemma {:induction false} StripAppend(a: string, b: string)
    ensures Strip(a + b) == Strip(a) + Strip(b)
  {
    if a != [] {
      assert (a + b)[0] == a[0];
      assert (a + b)[1..] == a[1..] + b;
      StripAppend(a[1..], b);
    } else {
      assert a + b == b;
    }
  }

  /** `Array.prototype.join('')` of an array of strings. */
  function Join(ls: seq<string>): string {
    if ls == [] then "" else Join(ls[..|ls| - 1]) + ls[|ls| - 1]
  }

  lemma JoinSnoc(ls: seq<string>, x: string)
    ensures Join(ls + [x]) == Join(ls) + x
  {
    assert (ls + [x])[..|ls|] == ls;
  }

  lemma {:induction false} JoinAppend(a: seq<string>, b: seq<string>)
    ensures Join(a + b) == Join(a) + Join(b)
    decreases |b|
  {
    if b == [] {
      assert a + b == a;
    } else {
      var init := b[..|b| - 1];
      var x := b[|b| - 1];
      assert b == init + [x];
      assert a + b == (a + init) + [x];
      JoinAppend(a, init);
      JoinSnoc(a + init, x);
      JoinSnoc(init, x);
      var ja, ji := Join(a), Join(init);
      assert (ja + ji) + x == ja + (ji + x);
    }
  }

  lemma JoinSingle(s: string)
    ensures Join([s]) == s
  {
    assert [s][..0] == [];
  }

  lemma JoinCons(s: string, ls: seq<string>)
    ensures Join([s] + ls) == s + Join(ls)
  {
    JoinAppend([s], ls);
    JoinSingle(s);
  }

  /** `toLowerCase`/`toLocaleLowerCase`, restricted to ASCII letters. */
  function LowerChar(c: char): char {
    if 'A' <= c <= 'Z' then (c as int + 32) as char else c
  }

  function Lower(s: string): (r: string)
    ensures |r| == |s|
    ensures forall i :: 0 <= i < |s| ==> r[i] == LowerChar(s[i])
  {
    seq(|s|, i requires 0 <= i < |s| => LowerChar(s[i]))
  }

  /** `pat` occurs in `s` starting at index `i`. */
  predicate OccursAt(s: string, pat: string, i: int) {
    0 <= i && i + |pat| <= |s| && s[i..i + |pat|] == pat
  }

  /** First occurrence of `pat` in `s` at or after `i`, or -1. */
  function IndexFrom(s: string, pat: string, i: nat): (r: int)
    ensures r == -1 || (i <= r && OccursAt(s, pat, r))
    ensures r == -1 ==> forall j :: i <= j ==> !OccursAt(s, pat, j)
    ensures r != -1 ==> forall j :: i <= j < r ==> !OccursAt(s, pat, j)
    decreases |s| - i
  {
    if i + |pat| > |s| then -1
    else if s[i..i + |pat|] == pat then i
    else IndexFrom(s, pat, i + 1)
  }

  /** `s.indexOf(pat)`. */
  function IndexOf(s: string, pat: string): (r: int)
    ensures r == -1 <==> forall j :: !OccursAt(s, pat, j)
    ensures r != -1 ==> OccursAt(s, pat, r) && forall j :: 0 <= j < r ==> !OccursAt(s, pat, j)
  {
    IndexFrom(s, pat, 0)
  }

  /** `s.indexOf(pat) !== -1`. */
  predicate Contains(s: string, pat: string) {
    IndexOf(s, pat) != -1
  }

  /** `s.indexOf(pat) === 0` holds exactly when `s` starts with `pat`. */
  lemma IndexOfZero(s: string, pat: string)
    ensures IndexOf(s, pat) == 0 <==> (|pat| <= |s| && s[..|pat|] == pat)
  {
    if |pat| <= |s| && s[..|pat|] == pat {
      assert OccursAt(s, pat, 0);
    }
  }

  /** A pattern does not occur at `j` when one of its characters differs. */
  lemma NotAt(m: string, pat: string, j: nat, o: nat)
    requires o < |pat| && j + o < |m| && m[j + o] != pat[o]
    ensures !OccursAt(m, pat, j)
  {
    if j + |pat| <= |m| {
      assert m[j..j + |pat|][o] == m[j + o];
    }
  }

  /** In `pre + mid + gap + pat + rest`, the first occurrence of `pat` is the
      one after `gap` when `mid` does not contain it, neither `pre` nor `gap`
      holds its first character, and it does not hold the first of `gap`. */
  lemma {:induction false} FirstOccurrenceAfter(pre: string, mid: string, gap: string, pat: string, rest: string)
    requires pat != [] && gap != [] && !Contains(mid, pat)
    requires pat[0] !in pre && pat[0] !in gap && gap[0] !in pat
    ensures var m := pre + mid + gap + pat + rest;
            IndexOf(m, pat) == |pre| + |mid| + |gap| &&
            m[|pre| + |mid| + |gap| + |pat|..] == rest
  {
    var m := pre + mid + gap + pat + rest;
    var n := |pre|;
    var p := n + |mid|;
    var q := p + |gap|;
    var w := |pat|;
    assert m[q..q + w] == pat;
    assert OccursAt(m, pat, q);
    assert m[q + w..] == rest;
    forall j | 0 <= j < q
      ensures !OccursAt(m, pat, j)
    {
      if j < n {
        assert m[j] == pre[j] && pre[j] in pre;
        NotAt(m, pat, j, 0);
      } else if j + w <= p {
        var k := j - n;
        assert m[j..j + w] == mid[k..k + w];
        assert !OccursAt(mid, pat, k);
      } else if j < p {
        assert m[p] == gap[0] && pat[p - j] in pat;
        NotAt(m, pat, j, p - j);
      } else {
        assert m[j] == gap[j - p] && gap[j - p] in gap;
        NotAt(m, pat, j, 0);
      }
    }
  }

  /** `s.replace(pat, rep)` with a plain string pattern: only the first
      occurrence is replaced, and `rep` is inserted literally (no `$`
      replacement patterns are interpreted). */
  function ReplaceFirst(s: string, pat: string, rep: string): (r: string)
    ensures !Contains(s, pat) ==> r == s
    ensures Contains(s, pat) ==>
              (var i := IndexOf(s, pat);
               OccursAt(s, pat, i) && (forall j :: 0 <= j < i ==> !OccursAt(s, pat, j)) &&
               r == s[..i] + rep + s[i + |pat|..])
  {
    var i := IndexOf(s, pat);
    if i == -1 then s else s[..i] + rep + s[i + |pat|..]
  }

  lemma ReplaceLeadingOccurrence(s: string, pat: string)
    requires |pat| <= |s| && s[..|pat|] == pat
    ensures ReplaceFirst(s, pat, "") == s[|pat|..]
  {
    IndexOfZero(s, pat);
  }

  const ReplaceWith: string := "Replace with: "

  /** Group 1 of `/Replace with: (.*)/s.exec(message)`: the `s` flag lets `.`
      match line breaks, so the group is everything after the FIRST
      occurrence of "Replace with: "; `None` when the expression does not
      match (exec returns null). */
  function ReplaceWithCapture(message: string): (r: Option<string>)
    ensures r.None? <==> !Contains(message, ReplaceWith)
    ensures r.Some? ==> message == message[..IndexOf(message, ReplaceWith)] + ReplaceWith + r.value
  {
    var i := IndexOf(message, ReplaceWith);
    if i == -1 then None else Some(message[i + |ReplaceWith|..])
  }
}
