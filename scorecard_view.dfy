/** The display rules of the scorecard screen (components/ScorecardView.tsx): the verdict badge's colour and
    label, the metric bars, and the numbered roadmap. */
module ScorecardView {
  import opened Types
  import opened JsString

  /** The three colours of the verdict badge. */
  datatype BadgeColor = Emerald | Sky | Rose

  /** The CSS classes of each colour. */
  function ColorClasses(color: BadgeColor): string {
    match color
    case Emerald => "text-emerald-400 bg-emerald-500/10 border-emerald-500/50"
    case Sky => "text-sky-400 bg-sky-500/10 border-sky-500/50"
    case Rose => "text-rose-500 bg-rose-500/10 border-rose-500/50"
  }

  /** `getVerdictColor`: emerald when the verdict mentions `STRONG_HIRE`, sky when it otherwise mentions `HIRE`,
      rose only when `HIRE` does not occur in it at all. */
  function VerdictColor(verdict: string): (color: BadgeColor)
    ensures color == Emerald <==> Contains(verdict, "STRONG_HIRE")
    ensures color == Sky <==> !Contains(verdict, "STRONG_HIRE") && Contains(verdict, "HIRE")
    ensures color == Rose <==> !Contains(verdict, "HIRE")
  {
    if Contains(verdict, "STRONG_HIRE") then
      StrongHireMentionsHire();
      ContainsTransitive(verdict, "STRONG_HIRE", "HIRE");
      Emerald
    else if Contains(verdict, "HIRE") then Sky
    else Rose
  }

  lemma StrongHireMentionsHire()
    ensures Contains("STRONG_HIRE", "HIRE")
  {
    ContainsAt("STRONG_HIRE", "HIRE", 7);
  }

  lemma NotContainedIfLonger(s: string, t: string)
    requires |s| < |t|
    ensures !Contains(s, t)
  {
    if Contains(s, t) {
      var i := ContainsWitness(s, t);
    }
  }

  lemma StrongHireColor()
    ensures VerdictColor(VerdictText(StrongHire)) == Emerald
  {
    ContainsAt("STRONG_HIRE", "STRONG_HIRE", 0);
  }

  lemma HireColor()
    ensures VerdictColor(VerdictText(Hire)) == Sky
  {
    ContainsAt("HIRE", "HIRE", 0);
    NotContainedIfLonger("HIRE", "STRONG_HIRE");
  }

  lemma NoHireColor()
    ensures VerdictColor(VerdictText(NoHire)) == Sky
  {
    ContainsAt("NO_HIRE", "HIRE", 3);
    NotContainedIfLonger("NO_HIRE", "STRONG_HIRE");
  }

  lemma LeanNoHireColor()
    ensures VerdictColor(VerdictText(LeanNoHire)) == Sky
  {
    var lean, strong := "LEAN_NO_HIRE", "STRONG_HIRE";
    ContainsAt(lean, "HIRE", 8);
    assert !StartsWith(lean, strong) by { assert lean[..11][0] != strong[0]; }
    assert !StartsWith(lean[1..], strong) by { assert lean[1..][..11][0] != strong[0]; }
    assert lean[1..][1..] == lean[2..];
    NotContainedIfLonger(lean[2..], strong);
  }

  /** Of the four declared verdicts only `STRONG_HIRE` is emerald; the other three, `NO_HIRE` and `LEAN_NO_HIRE`
      included, contain `HIRE` and are sky, so the rose colour is never used for them. */
  lemma DeclaredVerdictColors()
    ensures forall v :: VerdictColor(VerdictText(v)) == if v == StrongHire then Emerald else Sky
  {
    StrongHireColor();
    HireColor();
    NoHireColor();
    LeanNoHireColor();
  }

  /** The badge text `verdict.replace('_', ' ')`: the first underscore becomes a space, every other character,
      later underscores included, is kept. */
  function VerdictLabel(verdict: string): (badge: string)
    ensures |badge| == |verdict|
    ensures forall i :: 0 <= i < |verdict| && i != IndexOf(verdict, '_') ==> badge[i] == verdict[i]
    ensures '_' in verdict ==> badge[IndexOf(verdict, '_')] == ' ' && '_' !in badge[..IndexOf(verdict, '_') + 1]
    ensures '_' !in verdict ==> badge == verdict
  {
    var badge := ReplaceFirst(verdict, '_', ' ');
    ReplaceFirstAtIndexOf(verdict, '_', ' ');
    var k := IndexOf(verdict, '_');
    if k >= 0 then
      assert badge[..k + 1] == verdict[..k] + [' '];
      badge
    else badge
  }

  /** The badges of the declared verdicts: only the first underscore is replaced. */
  lemma DeclaredVerdictLabels()
    ensures VerdictLabel(VerdictText(StrongHire)) == "STRONG HIRE"
    ensures VerdictLabel(VerdictText(Hire)) == "HIRE"
    ensures VerdictLabel(VerdictText(NoHire)) == "NO HIRE"
    ensures VerdictLabel(VerdictText(LeanNoHire)) == "LEAN NO_HIRE"
  {
    LabelOfHire();
    LabelOfNoHire();
    LabelOfStrongHire();
    LabelOfLeanNoHire();
  }

  // The four labels, by evaluation of the literals.
  lemma LabelOfHire()
    ensures ReplaceFirst("HIRE", '_', ' ') == "HIRE"
  {
  }

  lemma LabelOfNoHire()
    ensures ReplaceFirst("NO_HIRE", '_', ' ') == "NO HIRE"
  {
    assert "NO_HIRE" == "NO" + "_HIRE";
    ReplaceFirstAfterPrefix("NO", "_HIRE", '_', ' ');
  }

  lemma LabelOfStrongHire()
    ensures ReplaceFirst("STRONG_HIRE", '_', ' ') == "STRONG HIRE"
  {
    assert "STRONG_HIRE" == "STRONG" + "_HIRE";
    ReplaceFirstAfterPrefix("STRONG", "_HIRE", '_', ' ');
  }

  lemma LabelOfLeanNoHire()
    ensures ReplaceFirst("LEAN_NO_HIRE", '_', ' ') == "LEAN NO_HIRE"
  {
    assert "LEAN_NO_HIRE" == "LEAN" + "_NO_HIRE";
    ReplaceFirstAfterPrefix("LEAN", "_NO_HIRE", '_', ' ');
  }

  /** A prefix without the pattern character is kept, and the replacement happens in the rest. */
  lemma {:induction false} ReplaceFirstAfterPrefix(prefix: string, rest: string, from: char, to: char)
    requires from !in prefix
    ensures ReplaceFirst(prefix + rest, from, to) == prefix + ReplaceFirst(rest, from, to)
    decreases |prefix|
  {
    if prefix == [] {
      assert prefix + rest == rest;
    } else {
      assert prefix[0] != from && prefix == [prefix[0]] + prefix[1..];
      assert (prefix + rest)[0] == prefix[0] && (prefix + rest)[1..] == prefix[1..] + rest;
      ReplaceFirstAfterPrefix(prefix[1..], rest, from, to);
      assert ReplaceFirst(prefix + rest, from, to) == [prefix[0]] + ReplaceFirst(prefix[1..] + rest, from, to);
    }
  }

  /** The width, in percent, of a metric's bar: `score * 10`. Scores 0 to 10 fill 0 to 100 percent, and a
      higher score never has a shorter bar. */
  function BarWidth(score: int): (width: int)
    ensures 0 <= score <= 10 <==> 0 <= width <= 100 && width % 10 == 0
  {
    score * 10
  }

  lemma BarWidthMonotone(a: int, b: int)
    ensures a <= b <==> BarWidth(a) <= BarWidth(b)
  {
  }

  /** A row of the "Capability Flux" list: the category, the score shown out of 10, and the bar width. */
  datatype ScoreRow = ScoreRow(category: string, score: int, width: int)

  /** A block of the "Insight Stream" list. */
  datatype AnalysisRow = AnalysisRow(category: string, observation: string, evidence: string)

  function ScoreRows(metrics: seq<EvaluationMetric>): (rows: seq<ScoreRow>)
    ensures |rows| == |metrics|
    ensures forall i :: 0 <= i < |metrics| ==>
      && rows[i].category == metrics[i].category
      && rows[i].score == metrics[i].score
      && rows[i].width == BarWidth(metrics[i].score)
  {
    seq(|metrics|, i requires 0 <= i < |metrics| =>
      ScoreRow(metrics[i].category, metrics[i].score, BarWidth(metrics[i].score)))
  }

  function AnalysisRows(metrics: seq<EvaluationMetric>): (rows: seq<AnalysisRow>)
    ensures |rows| == |metrics|
    ensures forall i :: 0 <= i < |metrics| ==>
      rows[i] == AnalysisRow(metrics[i].category, metrics[i].observation, metrics[i].evidence)
  {
    seq(|metrics|, i requires 0 <= i < |metrics| =>
      AnalysisRow(metrics[i].category, metrics[i].observation, metrics[i].evidence))
  }

  /** Both lists show the metrics in the order the scorecard holds them, row for row. */
  lemma MetricListsAgree(metrics: seq<EvaluationMetric>)
    ensures |ScoreRows(metrics)| == |AnalysisRows(metrics)|
    ensures forall i :: 0 <= i < |metrics| ==> ScoreRows(metrics)[i].category == AnalysisRows(metrics)[i].category
    ensures forall i :: 0 <= i < |metrics| ==>
      (0 <= metrics[i].score <= 10 ==> 0 <= ScoreRows(metrics)[i].width <= 100)
  {
  }

  /** A roadmap step with the number shown beside it. */
  datatype RoadmapItem = RoadmapItem(number: int, step: string)

  /** The roadmap: step `i` is numbered `i + 1`. */
  function Roadmap(feedback: seq<string>): (items: seq<RoadmapItem>)
    ensures |items| == |feedback|
  {
    seq(|feedback|, i requires 0 <= i < |feedback| => RoadmapItem(i + 1, feedback[i]))
  }

  function Steps(items: seq<RoadmapItem>): (steps: seq<string>)
    ensures |steps| == |items|
  {
    seq(|items|, i requires 0 <= i < |items| => items[i].step)
  }

  /** The roadmap is numbered 1 to n without gaps or repeats, and lists the steps unchanged and in order. */
  lemma RoadmapNumbering(feedback: seq<string>)
    ensures Steps(Roadmap(feedback)) == feedback
    ensures forall i :: 0 <= i < |feedback| ==> 1 <= Roadmap(feedback)[i].number <= |feedback|
    ensures forall i, j :: 0 <= i < j < |feedback| ==> Roadmap(feedback)[i].number < Roadmap(feedback)[j].number
    ensures |feedback| > 0 ==> Roadmap(feedback)[0].number == 1 && Roadmap(feedback)[|feedback| - 1].number == |feedback|
  {
  }
}
