/** The JavaScript string primitives the application relies on: `startsWith`, `endsWith`, `includes`, `trim`,
    `slice`, `indexOf`, `replace` with a one-character pattern, `toUpperCase` on ASCII text and `Array.join`.
    A Dafny `char` is a Unicode scalar value, not a UTF-16 code unit: lengths and indices count characters,
    which agrees with JavaScript's for text in the Basic Multilingual Plane, and every pattern used here is. */
module JsString {

  predicate StartsWith(s: string, prefix: string) {
    |prefix| <= |s| && s[..|prefix|] == prefix
  }

  predicate EndsWith(s: string, suffix: string) {
    |suffix| <= |s| && s[|s| - |suffix|..] == suffix
  }

  /** `t` occurs in `s` starting at position `i`. */
  predicate OccursAt(s: string, t: string, i: nat) {
    i + |t| <= |s| && s[i..i + |t|] == t
  }

  /** `s.includes(t)`: some suffix of `s` starts with `t`. */
  predicate Contains(s: string, t: string)
    decreases |s|
  {
    StartsWith(s, t) || (|s| > 0 && Contains(s[1..], t))
  }

  lemma {:induction false} ContainsAt(s: string, t: string, i: nat)
    requires i + |t| <= |s| && s[i..i + |t|] == t
    ensures Contains(s, t)
  {
    if i > 0 {
      assert s[1..][i - 1..i - 1 + |t|] == s[i..i + |t|];
      ContainsAt(s[1..], t, i - 1);
    } else {
      assert s[..|t|] == s[0..|t|];
    }
  }

  lemma {:induction false} ContainsWitness(s: string, t: string) returns (i: nat)
    requires Contains(s, t)
    ensures i + |t| <= |s| && s[i..i + |t|] == t
  {
    if StartsWith(s, t) {
      i := 0;
    } else {
      var j := ContainsWitness(s[1..], t);
      i := j + 1;
      assert s[1..][j..j + |t|] == s[i..i + |t|];
    }
  }

  /** `includes` is transitive: a string that contains `u` contains everything `u` contains. */
  lemma ContainsTransitive(s: string, u: string, t: string)
    requires Contains(s, u) && Contains(u, t)
    ensures Contains(s, t)
  {
    var i := ContainsWitness(s, u);
    var j := ContainsWitness(u, t);
    forall k | 0 <= k < |t| ensures s[i + j + k] == t[k] {
      assert s[i..i + |u|][j + k] == s[i + j + k];
    }
    assert s[i + j..i + j + |t|] == t;
    ContainsAt(s, t, i + j);
  }

  /** A slice of a slice is a slice of the whole. */
  lemma SliceOfSlice(s: string, i: nat, j: nat, a: nat, b: nat)
    requires i <= j <= |s| && a <= b <= j - i
    ensures s[i..j][a..b] == s[i + a..i + b]
  {
    forall k | 0 <= k < b - a ensures s[i..j][a..b][k] == s[i + a..i + b][k] {
      assert s[i..j][a..b][k] == s[i..j][a + k] == s[i + a + k];
    }
  }

  /** Concatenation of a sequence of strings (a template literal with its holes filled in). */
  function Flatten(pieces: seq<string>): string
    decreases |pieces|
  {
    if pieces == [] then "" else pieces[0] + Flatten(pieces[1..])
  }

  lemma {:induction false} FlattenPieceAt(pieces: seq<string>, k: nat)
    requires k < |pieces|
    ensures OccursAt(Flatten(pieces), pieces[k], |Flatten(pieces[..k])|)
  {
    if k == 0 {
      assert pieces[..0] == [];
    } else {
      var tail := pieces[1..];
      assert pieces[..k][1..] == tail[..k - 1];
      assert pieces[..k][0] == pieces[0];
      assert tail[k - 1] == pieces[k];
      FlattenPieceAt(tail, k - 1);
      var off := |Flatten(tail[..k - 1])|;
      assert Flatten(pieces) == pieces[0] + Flatten(tail);
      assert Flatten(pieces[..k]) == pieces[0] + Flatten(tail[..k - 1]);
      assert Flatten(pieces)[|pieces[0]| + off..|pieces[0]| + off + |pieces[k]|]
          == Flatten(tail)[off..off + |pieces[k]|];
    }
  }

  /** Every piece of a concatenation occurs in it. */
  lemma FlattenContainsPiece(pieces: seq<string>, k: nat)
    requires k < |pieces|
    ensures Contains(Flatten(pieces), pieces[k])
  {
    FlattenPieceAt(pieces, k);
    ContainsAt(Flatten(pieces), pieces[k], |Flatten(pieces[..k])|);
  }

  /** Every piece at the listed positions occurs in the concatenation. */
  lemma FlattenContainsPieces(pieces: seq<string>, at: seq<nat>)
    requires forall i :: 0 <= i < |at| ==> at[i] < |pieces|
    ensures forall i :: 0 <= i < |at| ==> Contains(Flatten(pieces), pieces[at[i]])
  {
    forall i | 0 <= i < |at| ensures Contains(Flatten(pieces), pieces[at[i]]) {
      FlattenContainsPiece(pieces, at[i]);
    }
  }

  /** Position at which piece `k` starts in `Flatten(pieces)`. */
  function PieceOffset(pieces: seq<string>, k: nat): nat
    requires k <= |pieces|
  {
    |Flatten(pieces[..k])|
  }

  lemma {:induction false} PieceOffsetMonotone(pieces: seq<string>, j: nat, k: nat)
    requires j <= k <= |pieces|
    ensures PieceOffset(pieces, j) + |Flatten(pieces[j..k])| == PieceOffset(pieces, k)
  {
    if j == k {
      assert pieces[j..k] == [];
    } else {
      PieceOffsetMonotone(pieces, j, k - 1);
      FlattenSnoc(pieces[j..k - 1], pieces[k - 1]);
      FlattenSnoc(pieces[..k - 1], pieces[k - 1]);
      assert pieces[j..k - 1] + [pieces[k - 1]] == pieces[j..k];
      assert pieces[..k - 1] + [pieces[k - 1]] == pieces[..k];
    }
  }

  lemma {:induction false} FlattenSnoc(pieces: seq<string>, last: string)
    ensures Flatten(pieces + [last]) == Flatten(pieces) + last
  {
    if pieces == [] {
      assert [] + [last] == [last];
      assert Flatten([last]) == last + Flatten([]);
    } else {
      assert (pieces + [last])[1..] == pieces[1..] + [last];
      FlattenSnoc(pieces[1..], last);
    }
  }

  /** `parts.join(sep)`. */
  function Join(parts: seq<string>, sep: string): string
    decreases |parts|
  {
    if |parts| == 0 then ""
    else if |parts| == 1 then parts[0]
    else parts[0] + sep + Join(parts[1..], sep)
  }

  function TotalLength(parts: seq<string>): nat
    decreases |parts|
  {
    if parts == [] then 0 else |parts[0]| + TotalLength(parts[1..])
  }

  /** A join of n >= 1 parts holds exactly n - 1 separators. */
  lemma {:induction false} JoinLength(parts: seq<string>, sep: string)
    requires |parts| >= 1
    ensures |Join(parts, sep)| == TotalLength(parts) + |sep| * (|parts| - 1)
  {
    if |parts| > 1 {
      JoinLength(parts[1..], sep);
      assert TotalLength(parts[1..][1..]) == TotalLength(parts[2..]);
    } else {
      assert parts[1..] == [];
    }
  }

  /** Appending a part to a non-empty join adds one separator and the part at the end. */
  lemma {:induction false} JoinSnoc(parts: seq<string>, last: string, sep: string)
    requires |parts| >= 1
    ensures Join(parts + [last], sep) == Join(parts, sep) + sep + last
  {
    if |parts| == 1 {
      assert (parts + [last])[1..] == [last];
    } else {
      assert (parts + [last])[1..] == parts[1..] + [last];
      JoinSnoc(parts[1..], last, sep);
    }
  }

  /** A join of non-empty parts is empty exactly when there are no parts. */
  lemma JoinEmptyIff(parts: seq<string>, sep: string)
    requires forall i :: 0 <= i < |parts| ==> parts[i] != ""
    ensures Join(parts, sep) == "" <==> parts == []
  {
    if |parts| > 0 {
      JoinLength(parts, sep);
      assert TotalLength(parts) >= |parts[0]| > 0;
    }
  }

  /** ECMAScript LineTerminator: LF, CR, LINE SEPARATOR, PARAGRAPH SEPARATOR. */
  predicate IsLineTerminator(c: char) {
    c == '\n' || c == '\r' || c == '\U{2028}' || c == '\U{2029}'
  }

  /** ECMAScript WhiteSpace: TAB, VT, FF, ZWNBSP and the space separators (Unicode category Zs). */
  predicate IsWhiteSpace(c: char) {
    c == '\t' || c == '\U{B}' || c == '\U{C}' || c == '\U{FEFF}' ||
    c == ' ' || c == '\U{A0}' || c == '\U{1680}' || ('\U{2000}' <= c <= '\U{200A}') ||
    c == '\U{202F}' || c == '\U{205F}' || c == '\U{3000}'
  }

  /** The characters `String.prototype.trim` removes. */
  predicate IsTrimmable(c: char) {
    IsWhiteSpace(c) || IsLineTerminator(c)
  }

  function TrimStart(s: string): (r: string)
    ensures |r| <= |s| && r == s[|s| - |r|..]
    ensures forall i :: 0 <= i < |s| - |r| ==> IsTrimmable(s[i])
    ensures r == [] || !IsTrimmable(r[0])
    decreases |s|
  {
    if s != [] && IsTrimmable(s[0]) then TrimStart(s[1..]) else s
  }

  function TrimEnd(s: string): (r: string)
    ensures |r| <= |s| && r == s[..|r|]
    ensures forall i :: |r| <= i < |s| ==> IsTrimmable(s[i])
    ensures r == [] || !IsTrimmable(r[|r| - 1])
    decreases |s|
  {
    if s != [] && IsTrimmable(s[|s| - 1]) then TrimEnd(s[..|s| - 1]) else s
  }

  /** `s.trim()`: a stretch of `s` that neither starts nor ends with white space or a line terminator. */
  function Trim(s: string): (r: string)
    ensures |r| <= |s|
    ensures r == [] || (!IsTrimmable(r[0]) && !IsTrimmable(r[|r| - 1]))
  {
    TrimEnd(TrimStart(s))
  }

  /** `!s.trim()` holds exactly when every character of `s` is white space or a line terminator. */
  lemma TrimEmptyIff(s: string)
    ensures Trim(s) == "" <==> forall i :: 0 <= i < |s| ==> IsTrimmable(s[i])
  {
    var t := TrimStart(s);
    if Trim(s) == "" {
      assert t == [];
    } else {
      assert t != [] && !IsTrimmable(t[0]);
      assert s[|s| - |t|] == t[0];
    }
  }

  /** `s.indexOf(c)` for a one-character search string: the first index of `c`, or -1. */
  function IndexOf(s: string, c: char): (k: int)
    ensures -1 <= k < |s|
    ensures k == -1 <==> c !in s
    ensures k >= 0 ==> s[k] == c && c !in s[..k]
    decreases |s|
  {
    if s == [] then -1
    else if s[0] == c then 0
    else
      var k := IndexOf(s[1..], c);
      if k == -1 then -1 else k + 1
  }

  /** `s.replace(from, to)` with one-character string arguments: only the first occurrence is replaced. */
  function ReplaceFirst(s: string, from: char, to: char): string
    decreases |s|
  {
    if s == [] then []
    else if s[0] == from then [to] + s[1..]
    else [s[0]] + ReplaceFirst(s[1..], from, to)
  }

  /** `replace` rewrites the character at `indexOf` and nothing else. */
  lemma {:induction false} ReplaceFirstAtIndexOf(s: string, from: char, to: char)
    ensures ReplaceFirst(s, from, to) == (var k := IndexOf(s, from); if k < 0 then s else s[..k] + [to] + s[k + 1..])
    decreases |s|
  {
    if s != [] && s[0] != from {
      ReplaceFirstAtIndexOf(s[1..], from, to);
      var k := IndexOf(s[1..], from);
      if k >= 0 {
        assert [s[0]] + s[1..][..k] == s[..k + 1];
        assert s[1..][k + 1..] == s[k + 2..];
      }
    }
  }

  /** `s.slice(start, end)`: negative positions count from the end, and the span is clamped to the string. */
  function Slice(s: string, start: int, end: int): (r: string)
    ensures |r| <= |s|
  {
    var from := if start < 0 then (if |s| + start < 0 then 0 else |s| + start)
                else (if start < |s| then start else |s|);
    var to := if end < 0 then (if |s| + end < 0 then 0 else |s| + end)
              else (if end < |s| then end else |s|);
    if to <= from then "" else s[from..to]
  }

  /** `slice(2, -2)` drops the first two and the last two characters; on fewer than four it gives "". */
  lemma SliceTwoTwo(s: string)
    ensures |s| >= 4 ==> Slice(s, 2, -2) == s[2..|s| - 2]
    ensures |s| <= 4 ==> Slice(s, 2, -2) == ""
  {
  }

  function UpperChar(c: char): char {
    if 'a' <= c <= 'z' then (c as int - 'a' as int + 'A' as int) as char else c
  }

  /** `s.toUpperCase()`, exact for ASCII text. */
  function AsciiUpper(s: string): (r: string)
    ensures |r| == |s|
    ensures forall i :: 0 <= i < |s| ==> r[i] == UpperChar(s[i])
  {
    seq(|s|, i requires 0 <= i < |s| => UpperChar(s[i]))
  }
}
