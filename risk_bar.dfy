/** The risk bar: the selected case's score drawn as a coloured bar. */
module RiskBar {
  import opened Strings
  import opened Wrappers
  import opened CaseBuilder
  import opened CasesStore

  /** `selected?.riskScore ?? 0`. */
  function Score(selected: Option<Case>): (score: nat)
    ensures selected.None? ==> score == 0
    ensures selected.Some? ==> score == selected.value.riskScore
  {
    match selected
    case Some(c) => c.riskScore
    case None => 0
  }

  datatype Band = Green | Amber | Red

  /** The CSS colour of each band. */
  function BandColor(b: Band): string {
    match b
    case Red => "#d14343"
    case Amber => "#d39b2a"
    case Green => "#2c8a4a"
  }

  /** `score >= 70 ? red : score >= 40 ? amber : green`. */
  function BandOf(score: int): (b: Band)
    ensures b == Red <==> score >= 70
    ensures b == Amber <==> 40 <= score < 70
    ensures b == Green <==> score < 40
  {
    if score >= 70 then Red else if score >= 40 then Amber else Green
  }

  /** The bar's fill colour: the colour of the band the score falls in. */
  function Color(score: int): (c: string)
    ensures score >= 70 ==> c == "#d14343"
    ensures 40 <= score < 70 ==> c == "#d39b2a"
    ensures score < 40 ==> c == "#2c8a4a"
  {
    BandColor(BandOf(score))
  }

  /** The bands in increasing order of risk. */
  function Rank(b: Band): nat {
    match b
    case Green => 0
    case Amber => 1
    case Red => 2
  }

  /** A higher score never lands in a lower band. */
  lemma BandMonotone(s: int, t: int)
    requires s <= t
    ensures Rank(BandOf(s)) <= Rank(BandOf(t))
  {
  }

  /** The bar's CSS width, `${score}%`. */
  function BarWidth(score: nat): (w: string)
    ensures |w| >= 2 && w[|w| - 1] == '%'
    ensures forall i :: 0 <= i < |w| - 1 ==> IsDigit(w[i])
    ensures DigitsValue(w[..|w| - 1]) == score
  {
    NatToStringRoundTrip(score);
    var digits := NatToString(score);
    assert (digits + "%")[..|digits|] == digits;
    digits + "%"
  }

  /** With cases from the builder the bar is between 0% and 100% wide, whatever is selected. */
  lemma BarWithinBounds(posts: seq<Post>, selectedCaseId: Option<int>)
    ensures var w := BarWidth(Score(SelectedCase(BuildCases(posts), selectedCaseId)));
      0 <= DigitsValue(w[..|w| - 1]) <= 100
  {
    var items := BuildCases(posts);
    var selected := SelectedCase(items, selectedCaseId);
    if selected.Some? {
      var i :| 0 <= i < |items| && items[i] == selected.value;
      assert items[i] == BuildCase(posts[i]);
    }
  }
}
