/** `renderThoughtText` (components/InterviewStage.tsx): the interviewer's internal thought is split by the
    regular expression `/(\*\*.*?\*\*)/g` and every part that starts and ends with `**` is shown highlighted,
    without its first and last two characters. The split follows the ECMAScript `@@split` loop: the pattern
    is tried at each position in turn; a match ends the current plain part, contributes its captured text
    (the whole match) as a part of its own, and the search resumes after it. */
module ThoughtText {
  import opened Wrappers
  import opened JsString

  /** The two characters at `k` are `**`. */
  predicate StarsAt(s: string, k: nat) {
    k + 1 < |s| && s[k] == '*' && s[k + 1] == '*'
  }

  /** A `**…**` run the pattern can match: at least four characters, opened and closed by `**`, and no line
      terminator in between, since `.` does not match one. */
  predicate IsBoldRun(t: string) {
    && |t| >= 4 && StarsAt(t, 0) && StarsAt(t, |t| - 2)
    && forall i :: 2 <= i < |t| - 2 ==> !IsLineTerminator(t[i])
  }

  /** A run holds no line terminator at all. */
  lemma BoldRunHasNoTerminator(t: string)
    requires IsBoldRun(t)
    ensures forall i :: 0 <= i < |t| ==> !IsLineTerminator(t[i])
  {
    forall i | 0 <= i < |t| ensures !IsLineTerminator(t[i]) {
      if i < 2 {
        assert t[i] == '*';
      } else if i >= |t| - 2 {
        assert t[i] == '*';
      }
    }
  }

  /** A run closed by the first `**` after its opening one, as the lazy `.*?` requires. */
  predicate IsShortestRun(t: string) {
    IsBoldRun(t) && forall k :: 2 <= k < |t| - 2 ==> !StarsAt(t, k)
  }

  /** The lazy `.*?\*\*` from position `j`: the end of the first `**` reached without crossing a line terminator. */
  function CloseFrom(s: string, j: nat): (e: Option<nat>)
    requires j <= |s|
    ensures e.Some? ==> j + 2 <= e.value <= |s| && StarsAt(s, e.value - 2)
    decreases |s| - j
  {
    if StarsAt(s, j) then Some(j + 2)
    else if j < |s| && !IsLineTerminator(s[j]) then CloseFrom(s, j + 1)
    else None
  }

  /** Before the `**` it stops at, `CloseFrom` passed no line terminator and no other `**`. */
  lemma {:induction false} CloseFromSkips(s: string, j: nat)
    requires j <= |s| && CloseFrom(s, j).Some?
    ensures forall k :: j <= k < CloseFrom(s, j).value - 2 ==> !IsLineTerminator(s[k])
    ensures forall k :: j <= k < CloseFrom(s, j).value - 2 ==> !StarsAt(s, k)
    decreases |s| - j
  {
    if !StarsAt(s, j) {
      CloseFromSkips(s, j + 1);
    }
  }

  /** The pattern anchored at position `q`: the end of the match, if there is one. */
  function MatchAt(s: string, q: nat): (m: Option<nat>)
    requires q <= |s|
    ensures m.Some? ==> q + 4 <= m.value <= |s|
  {
    if StarsAt(s, q) then CloseFrom(s, q + 2) else None
  }

  /** What the pattern matches is a shortest run. */
  lemma MatchAtRun(s: string, q: nat)
    requires q <= |s| && MatchAt(s, q).Some?
    ensures IsShortestRun(s[q..MatchAt(s, q).value])
  {
    var e := MatchAt(s, q).value;
    CloseFromSkips(s, q + 2);
    MatchedRunEnds(s, q, e);
    MatchedRunHasNoTerminator(s, q, e);
    MatchedRunIsShortest(s, q, e);
  }

  lemma MatchedRunEnds(s: string, q: nat, e: nat)
    requires StarsAt(s, q) && CloseFrom(s, q + 2) == Some(e)
    ensures StarsAt(s[q..e], 0) && StarsAt(s[q..e], e - q - 2)
  {
    assert s[q..e][e - q - 2] == s[e - 2] && s[q..e][e - q - 1] == s[e - 1];
  }

  lemma MatchedRunHasNoTerminator(s: string, q: nat, e: nat)
    requires q + 4 <= e <= |s|
    requires forall k :: q + 2 <= k < e - 2 ==> !IsLineTerminator(s[k])
    ensures forall i :: 2 <= i < e - q - 2 ==> !IsLineTerminator(s[q..e][i])
  {
    forall i | 2 <= i < e - q - 2 ensures !IsLineTerminator(s[q..e][i]) {
      assert s[q..e][i] == s[q + i];
    }
  }

  lemma MatchedRunIsShortest(s: string, q: nat, e: nat)
    requires q + 4 <= e <= |s|
    requires forall k :: q + 2 <= k < e - 2 ==> !StarsAt(s, k)
    ensures forall k :: 2 <= k < e - q - 2 ==> !StarsAt(s[q..e], k)
  {
    forall k | 2 <= k < e - q - 2 ensures !StarsAt(s[q..e], k) {
      assert !StarsAt(s, q + k);
    }
  }

  /** Whenever a closing `**` can be reached from `j` without a line terminator, `CloseFrom` finds one no later. */
  lemma {:induction false} CloseFromComplete(s: string, j: nat, k: nat)
    requires j <= k && StarsAt(s, k)
    requires forall m :: j <= m < k ==> !IsLineTerminator(s[m])
    ensures CloseFrom(s, j).Some? && CloseFrom(s, j).value <= k + 2
    decreases k - j
  {
    if !StarsAt(s, j) {
      CloseFromComplete(s, j + 1, k);
    }
  }

  /** The pattern misses no run: wherever a `**…**` run starts, `MatchAt` matches, ending no later than it. */
  lemma MatchAtComplete(s: string, q: nat, e: nat)
    requires q <= e <= |s| && IsBoldRun(s[q..e])
    ensures MatchAt(s, q).Some? && MatchAt(s, q).value <= e
  {
    var t := s[q..e];
    forall i | 0 <= i < |t| ensures t[i] == s[q + i] { }
    forall m | q + 2 <= m < e - 2 ensures !IsLineTerminator(s[m]) {
      assert s[m] == t[m - q];
      assert 2 <= m - q < |t| - 2;
    }
    assert StarsAt(s, e - 2) by {
      assert t[|t| - 2] == s[e - 2] && t[|t| - 1] == s[e - 1];
    }
    CloseFromComplete(s, q + 2, e - 2);
  }

  /** The split loop: `p` is where the current plain part began, `q` the position being tried. A match cannot
      be empty, so the loop's test for an empty match at `p` never fires and is left out. */
  function SplitFrom(s: string, p: nat, q: nat): seq<string>
    requires p <= q <= |s|
    decreases |s| - q
  {
    if q == |s| then [s[p..]]
    else
      match MatchAt(s, q)
      case Some(e) => [s[p..q], s[q..e]] + SplitFrom(s, e, e)
      case None => SplitFrom(s, p, q + 1)
  }

  /** `text.split(/(\*\*.*?\*\*)/g)`. */
  function Split(text: string): seq<string> {
    SplitFrom(text, 0, 0)
  }

  /** The pattern matches nowhere in `[a, b)`. */
  predicate NoMatchBetween(s: string, a: nat, b: nat)
    requires a <= b <= |s|
  {
    forall k :: a <= k < b ==> MatchAt(s, k).None?
  }

  /** `parts` cuts `s[p..]` into consecutive pieces, an odd number of them; which cuts are matches is `Leftmost`'s
      business. */
  predicate Tiles(s: string, p: nat, parts: seq<string>)
    requires p <= |s|
    decreases |parts|
  {
    if |parts| == 1 then parts[0] == s[p..]
    else
      && |parts| >= 3
      && p + |parts[0]| + |parts[1]| <= |s|
      && var q, e := p + |parts[0]|, p + |parts[0]| + |parts[1]|;
      && parts[0] == s[p..q] && parts[1] == s[q..e]
      && Tiles(s, e, parts[2..])
  }

  /** The cuts of `parts` sit at the leftmost matches: the pattern matches nowhere in any even-numbered piece,
      and every odd-numbered piece is exactly the match found at its start. */
  predicate Leftmost(s: string, p: nat, parts: seq<string>)
    requires p <= |s| && Tiles(s, p, parts)
    decreases |parts|
  {
    if |parts| == 1 then NoMatchBetween(s, p, |s|)
    else
      var q, e := p + |parts[0]|, p + |parts[0]| + |parts[1]|;
      && NoMatchBetween(s, p, q) && MatchAt(s, q) == Some(e)
      && Leftmost(s, e, parts[2..])
  }

  /** `parts` splits `s[p..]` at the leftmost matches. */
  predicate IsSplitFrom(s: string, p: nat, parts: seq<string>)
    requires p <= |s|
  {
    Tiles(s, p, parts) && Leftmost(s, p, parts)
  }

  lemma {:induction false} SplitFromIsSplit(s: string, p: nat, q: nat)
    requires p <= q <= |s| && NoMatchBetween(s, p, q)
    ensures IsSplitFrom(s, p, SplitFrom(s, p, q))
    decreases |s| - q
  {
    if q < |s| {
      match MatchAt(s, q)
      case Some(e) =>
        var parts := SplitFrom(s, p, q);
        SplitFromIsSplit(s, e, e);
        assert parts[2..] == SplitFrom(s, e, e);
      case None =>
        SplitFromIsSplit(s, p, q + 1);
    }
  }

  /** There is only one leftmost split. */
  lemma {:induction false} SplitUnique(s: string, p: nat, parts: seq<string>, others: seq<string>)
    requires p <= |s| && IsSplitFrom(s, p, parts) && IsSplitFrom(s, p, others)
    ensures parts == others
    decreases |parts|
  {
    if |parts| > 1 && |others| > 1 {
      var q, q' := p + |parts[0]|, p + |others[0]|;
      if q == q' {
        var e := q + |parts[1]|;
        SplitUnique(s, e, parts[2..], others[2..]);
        assert parts == [parts[0], parts[1]] + parts[2..];
        assert others == [others[0], others[1]] + others[2..];
      }
    }
  }

  lemma {:induction false} SplitConcatenates(s: string, p: nat, parts: seq<string>)
    requires p <= |s| && Tiles(s, p, parts)
    ensures Flatten(parts) == s[p..] && |parts| % 2 == 1
    decreases |parts|
  {
    if |parts| == 1 {
      assert Flatten(parts) == parts[0] + Flatten([]);
    } else {
      var q, e := p + |parts[0]|, p + |parts[0]| + |parts[1]|;
      SplitConcatenates(s, e, parts[2..]);
      assert parts[1..][1..] == parts[2..];
      assert s[p..] == s[p..q] + s[q..e] + s[e..];
    }
  }

  /** Where the pattern does not match, no run starts. */
  lemma NoRunWithoutMatch(s: string, q: nat, e: nat)
    requires q <= e <= |s| && MatchAt(s, q).None?
    ensures !IsBoldRun(s[q..e])
  {
    if IsBoldRun(s[q..e]) {
      MatchAtComplete(s, q, e);
    }
  }

  /** A plain piece of a leftmost split holds no run. */
  lemma {:induction false} SplitPlainPiece(s: string, p: nat, parts: seq<string>, i: nat)
    requires p <= |s| && IsSplitFrom(s, p, parts) && i < |parts| && i % 2 == 0
    ensures forall a, b :: 0 <= a <= b <= |parts[i]| ==> !IsBoldRun(parts[i][a..b])
    decreases |parts|
  {
    if i == 0 {
      var piece := parts[0];
      assert piece == s[p..p + |piece|];
      forall a, b | 0 <= a <= b <= |piece| ensures !IsBoldRun(piece[a..b]) {
        SliceOfSlice(s, p, p + |piece|, a, b);
        if a < |parts[0]| {
          NoRunWithoutMatch(s, p + a, p + b);
        }
      }
    } else {
      SplitPlainPiece(s, p + |parts[0]| + |parts[1]|, parts[2..], i - 2);
      assert parts[2..][i - 2] == parts[i];
    }
  }

  /** A matched piece of a leftmost split is a shortest run. */
  lemma {:induction false} SplitMatchedPiece(s: string, p: nat, parts: seq<string>, i: nat)
    requires p <= |s| && IsSplitFrom(s, p, parts) && i < |parts| && i % 2 == 1
    ensures IsShortestRun(parts[i])
    decreases |parts|
  {
    if i == 1 {
      MatchAtRun(s, p + |parts[0]|);
    } else {
      SplitMatchedPiece(s, p + |parts[0]| + |parts[1]|, parts[2..], i - 2);
      assert parts[2..][i - 2] == parts[i];
    }
  }

  /** `Split(text)` is the one split of the whole text at its leftmost matches. */
  lemma SplitIsLeftmost(text: string)
    ensures IsSplitFrom(text, 0, Split(text))
    ensures forall parts :: IsSplitFrom(text, 0, parts) ==> parts == Split(text)
  {
    SplitFromIsSplit(text, 0, 0);
    forall parts | IsSplitFrom(text, 0, parts) ensures parts == Split(text) {
      SplitUnique(text, 0, parts, Split(text));
    }
  }

  /** Concatenating the parts of the split gives back the text exactly. */
  lemma SplitRoundTrip(text: string)
    ensures Flatten(Split(text)) == text
  {
    SplitFromIsSplit(text, 0, 0);
    SplitConcatenates(text, 0, Split(text));
  }

  /** The parts alternate and start and end with a plain part; every odd-numbered part is a shortest `**…**`
      run, free of line terminators; no plain part holds such a run. */
  lemma SplitParts(text: string)
    ensures |Split(text)| % 2 == 1
    ensures forall i :: 0 <= i < |Split(text)| && i % 2 == 1 ==> IsShortestRun(Split(text)[i])
    ensures forall i, a, b :: 0 <= i < |Split(text)| && i % 2 == 0 && 0 <= a <= b <= |Split(text)[i]| ==>
      !IsBoldRun(Split(text)[i][a..b])
  {
    SplitFromIsSplit(text, 0, 0);
    SplitConcatenates(text, 0, Split(text));
    forall i | 0 <= i < |Split(text)| && i % 2 == 1 ensures IsShortestRun(Split(text)[i]) {
      SplitMatchedPiece(text, 0, Split(text), i);
    }
    forall i | 0 <= i < |Split(text)| && i % 2 == 0
      ensures forall a, b :: 0 <= a <= b <= |Split(text)[i]| ==> !IsBoldRun(Split(text)[i][a..b])
    {
      SplitPlainPiece(text, 0, Split(text), i);
    }
  }

  /** What a part renders as: the highlighted span or the plain text. */
  datatype Segment = Plain(text: string) | Highlight(text: string)

  /** One part of the split: highlighted, without its two first and two last characters, when it starts and ends
      with `**`, plain otherwise. */
  function RenderPart(part: string): (segment: Segment)
    ensures segment.Highlight? <==> StartsWith(part, "**") && EndsWith(part, "**")
    ensures segment.Plain? ==> segment.text == part
    ensures segment.Highlight? && |part| >= 4 ==> "**" + segment.text + "**" == part
    ensures segment.Highlight? && |part| < 4 ==> segment.text == ""
  {
    SliceTwoTwo(part);
    if StartsWith(part, "**") && EndsWith(part, "**") then
      assert |part| >= 4 ==> part == part[..2] + part[2..|part| - 2] + part[|part| - 2..];
      Highlight(Slice(part, 2, -2))
    else Plain(part)
  }

  /** `renderThoughtText(text)`: one segment per part, in order. */
  function RenderThought(text: string): (segments: seq<Segment>)
    ensures |segments| == |Split(text)|
  {
    var parts := Split(text);
    seq(|parts|, i requires 0 <= i < |parts| => RenderPart(parts[i]))
  }

  /** Every run the pattern matched is highlighted, shown without its `**` delimiters, and a plain part that
      does not both start and end with `**` is shown as it is. */
  lemma RenderedRuns(text: string)
    ensures |RenderThought(text)| == |Split(text)|
    ensures forall i :: 0 <= i < |Split(text)| && i % 2 == 1 ==>
      |Split(text)[i]| >= 4 && RenderThought(text)[i] == Highlight(Split(text)[i][2..|Split(text)[i]| - 2])
    ensures forall i :: (0 <= i < |Split(text)| && i % 2 == 0 &&
      !(StartsWith(Split(text)[i], "**") && EndsWith(Split(text)[i], "**"))) ==>
      RenderThought(text)[i] == Plain(Split(text)[i])
  {
    SplitParts(text);
    forall i | 0 <= i < |Split(text)| && i % 2 == 1
      ensures |Split(text)[i]| >= 4 && RenderThought(text)[i] == Highlight(Split(text)[i][2..|Split(text)[i]| - 2])
    {
      SliceTwoTwo(Split(text)[i]);
    }
  }

  /** The test on `startsWith('**') && endsWith('**')` also catches plain parts that the pattern did not match:
      a lone `**`, or a pair of `**` with a line break between them, is shown as a highlight. */
  lemma PlainPartsCanHighlight()
    ensures RenderThought("**") == [Highlight("")]
    ensures RenderThought("**\n**") == [Highlight("\n")]
  {
    assert Split("**") == ["**"] by {
      assert MatchAt("**", 0) == None;
      assert MatchAt("**", 1) == None;
    }
    var t := "**\n**";
    assert Split(t) == [t] by {
      assert CloseFrom(t, 2) == None;
      assert !OccursAt(t, "**", 1) && !OccursAt(t, "**", 2);
      assert MatchAt(t, 0) == None && MatchAt(t, 1) == None && MatchAt(t, 2) == None;
      assert MatchAt(t, 3) == None && MatchAt(t, 4) == None;
    }
    assert Slice(t, 2, -2) == "\n";
  }

  /** A worked example: one run between two plain parts. */
  lemma SplitExample()
    ensures Split("a **b** c") == ["a ", "**b**", " c"]
  {
    var s := "a **b** c";
    var parts := ["a ", "**b**", " c"];
    assert MatchAt(s, 0) == None && MatchAt(s, 1) == None;
    assert CloseFrom(s, 4) == Some(7) by {
      assert !StarsAt(s, 4) && StarsAt(s, 5);
    }
    assert MatchAt(s, 2) == Some(7);
    assert MatchAt(s, 7) == None && MatchAt(s, 8) == None;
    assert parts[2..] == [" c"];
    assert Tiles(s, 0, parts);
    assert Leftmost(s, 0, parts);
    SplitIsLeftmost(s);
  }
}
