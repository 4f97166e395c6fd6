/** The quintile scorer, `calculate_rfm_scores`: it writes five score columns
    into the caller's RFM table, one assignment after another. */
module Scorer {
  import opened Common
  import opened Aggregator

  /** A column added to the table. `qcut` yields a categorical column of labels,
      NaN (`None`) where the metric was NaN; `astype(int)` and the sums give
      integer columns; `astype(str)` and concatenation give a text column. */
  datatype Column =
    | Labels(name: string, labels: seq<Option<int>>)
    | Ints(name: string, ints: seq<int>)
    | Texts(name: string, texts: seq<string>)

  datatype ScoreError =
    | BinEdgesNotUnique(metric: string)  // `qcut` with its default `duplicates='raise'`
    | NaNToInt                           // `astype(int)` met a NaN label

  predicate NonDecreasing(e: seq<real>)
  {
    forall i, j :: 0 <= i < j < |e| ==> e[i] <= e[j]
  }

  predicate StrictlyIncreasing(e: seq<real>)
  {
    forall i, j :: 0 <= i < j < |e| ==> e[i] < e[j]
  }

  /** What the quantile step of `qcut(q=5)` hands to the binning step: six
      non-decreasing edges that bracket every non-missing value (the first is
      the minimum, the last the maximum). How the inner edges are interpolated
      is left to the library. */
  predicate QuintileEdges(e: seq<real>, values: seq<Option<int>>)
  {
    |e| == 6 && NonDecreasing(e) &&
    forall i :: 0 <= i < |values| && values[i].Some? ==> e[0] <= values[i].value as real <= e[5]
  }

  predicate HasValue(values: seq<Option<int>>)
  {
    exists i :: 0 <= i < |values| && values[i].Some?
  }

  predicate AllPresent(values: seq<Option<int>>)
  {
    forall i :: 0 <= i < |values| ==> values[i].Some?
  }

  /** The bin `pd.cut` gives `x` with `right=True, include_lowest=True`: the
      first `b` with `x <= e[b]`. */
  function Bin(e: seq<real>, x: real): (b: int)
    requires |e| == 6 && StrictlyIncreasing(e) && e[0] <= x <= e[5]
    ensures 1 <= b <= 5
    ensures e[b - 1] <= x <= e[b] && (b > 1 ==> e[b - 1] < x)
  {
    if x <= e[1] then 1
    else if x <= e[2] then 2
    else if x <= e[3] then 3
    else if x <= e[4] then 4
    else 5
  }

  const RecencyLabels: seq<int> := [5, 4, 3, 2, 1]
  const AscendingLabels: seq<int> := [1, 2, 3, 4, 5]

  /** `pd.qcut(values, q=5, labels=labels)` over the edges `e`. With no
      non-missing value the edges are all NaN and collapse into one, so the
      duplicate check raises too. */
  function QCut(values: seq<Option<int>>, e: seq<real>, labels: seq<int>, metric: string): (r: Result<seq<Option<int>>, ScoreError>)
    requires |labels| == 5 && QuintileEdges(e, values)
    ensures r.Ok? ==> |r.value| == |values|
  {
    if !HasValue(values) || !Distinct(e) then Err(BinEdgesNotUnique(metric))
    else
      Ok(seq(|values|, i requires 0 <= i < |values| =>
        if values[i].None? then None else Some(labels[Bin(e, values[i].value as real) - 1])))
  }

  function ToInts(labels: seq<Option<int>>): (r: seq<int>)
    requires AllPresent(labels)
    ensures |r| == |labels|
  {
    seq(|labels|, i requires 0 <= i < |labels| => labels[i].value)
  }

  function Digit(d: int): char
    requires 0 <= d <= 9
  {
    ('0' as int + d) as char
  }

  /** `str` of a non-negative integer: its decimal digits, most significant first. */
  function NatText(n: nat): string
    decreases n
  {
    if n < 10 then [Digit(n)] else NatText(n / 10) + [Digit(n % 10)]
  }

  /** `astype(str)` of an integer. */
  function IntText(n: int): string
  {
    if n < 0 then ['-'] + NatText(-n) else NatText(n)
  }

  /** `RFM_Group` of one row. */
  function GroupText(r: int, f: int, m: int): string
  {
    IntText(r) + IntText(f) + IntText(m)
  }

  /** `RFM_Score`: the row-wise sum of the three score columns. */
  function Totals(r: seq<int>, f: seq<int>, m: seq<int>): (s: seq<int>)
    requires |r| == |f| == |m|
    ensures |s| == |r|
  {
    seq(|r|, i requires 0 <= i < |r| => r[i] + f[i] + m[i])
  }

  /** `RFM_Group`: the row-wise concatenation of the three scores' texts. */
  function Groups(r: seq<int>, f: seq<int>, m: seq<int>): (g: seq<string>)
    requires |r| == |f| == |m|
    ensures |g| == |r|
  {
    seq(|r|, i requires 0 <= i < |r| => GroupText(r[i], f[i], m[i]))
  }

  /** `df[name] = column`: replaces the column of that name in place, or appends it. */
  function Assign(cols: seq<Column>, c: Column): seq<Column>
    decreases |cols|
  {
    if cols == [] then [c]
    else if cols[0].name == c.name then [c] + cols[1..]
    else [cols[0]] + Assign(cols[1..], c)
  }

  function RecencyValues(rows: seq<RfmRow>): seq<Option<int>>
  {
    seq(|rows|, i requires 0 <= i < |rows| => rows[i].recency)
  }

  function FrequencyValues(rows: seq<RfmRow>): seq<Option<int>>
  {
    seq(|rows|, i requires 0 <= i < |rows| => Some(rows[i].frequency as int))
  }

  function MonetaryValues(rows: seq<RfmRow>): seq<Option<int>>
  {
    seq(|rows|, i requires 0 <= i < |rows| => Some(rows[i].monetary))
  }

  /** The edges the library computes for the three metrics of `rows`. */
  predicate EdgesFit(rows: seq<RfmRow>, re: seq<real>, fe: seq<real>, me: seq<real>)
  {
    QuintileEdges(re, RecencyValues(rows)) &&
    QuintileEdges(fe, FrequencyValues(rows)) &&
    QuintileEdges(me, MonetaryValues(rows))
  }

  /** The added columns after scoring, and the error raised, if any. */
  datatype Scoring = Scoring(columns: seq<Column>, error: Option<ScoreError>)

  /** Lines 18-31 as one expression over the table's rows and its added columns. */
  function Score(rows: seq<RfmRow>, cols: seq<Column>, re: seq<real>, fe: seq<real>, me: seq<real>): Scoring
    requires EdgesFit(rows, re, fe, me)
  {
    match QCut(RecencyValues(rows), re, RecencyLabels, "Recency")
    case Err(e) => Scoring(cols, Some(e))
    case Ok(rl) =>
      var c1 := Assign(cols, Labels("R_Score", rl));
      match QCut(FrequencyValues(rows), fe, AscendingLabels, "Frequency")
      case Err(e) => Scoring(c1, Some(e))
      case Ok(fl) =>
        var c2 := Assign(c1, Labels("F_Score", fl));
        match QCut(MonetaryValues(rows), me, AscendingLabels, "Monetary")
        case Err(e) => Scoring(c2, Some(e))
        case Ok(ml) =>
          var c3 := Assign(c2, Labels("M_Score", ml));
          if !(AllPresent(rl) && AllPresent(fl) && AllPresent(ml)) then Scoring(c3, Some(NaNToInt))
          else
            var r, f, m := ToInts(rl), ToInts(fl), ToInts(ml);
            var c4 := Assign(Assign(Assign(c3, Ints("R_Score", r)), Ints("F_Score", f)), Ints("M_Score", m));
            Scoring(Assign(Assign(c4, Ints("RFM_Score", Totals(r, f, m))), Texts("RFM_Group", Groups(r, f, m))), None)
  }

  /** The RFM table the caller owns: the merged rows and the columns added to them. */
  class RfmTable {
    var rows: seq<RfmRow>
    var extra: seq<Column>

    constructor (rows: seq<RfmRow>)
      ensures this.rows == rows && extra == []
    {
      this.rows := rows;
      extra := [];
    }
  }

  /** What `calculate_rfm_scores` does for its caller: returns `None`, returns
      the table it was given, or raises. */
  datatype Outcome = NoData | Returned(table: RfmTable) | Raised(error: ScoreError)

  /** `calculate_rfm_scores`: assigns the score columns into `t` one after
      another; an exception leaves the columns assigned before it in place. */
  method CalculateRfmScores(t: RfmTable?, re: seq<real>, fe: seq<real>, me: seq<real>) returns (o: Outcome)
    requires t != null ==> EdgesFit(t.rows, re, fe, me)
    modifies t
    ensures t == null ==> o == NoData
    ensures t != null ==> t.rows == old(t.rows)
    ensures t != null ==>
      var s := Score(old(t.rows), old(t.extra), re, fe, me);
      t.extra == s.columns && o == (if s.error.None? then Returned(t) else Raised(s.error.value))
  {
    if t == null {
      return NoData;
    }
    var rl := QCut(RecencyValues(t.rows), re, RecencyLabels, "Recency");
    if rl.Err? {
      return Raised(rl.error);
    }
    t.extra := Assign(t.extra, Labels("R_Score", rl.value));
    var fl := QCut(FrequencyValues(t.rows), fe, AscendingLabels, "Frequency");
    if fl.Err? {
      return Raised(fl.error);
    }
    t.extra := Assign(t.extra, Labels("F_Score", fl.value));
    var ml := QCut(MonetaryValues(t.rows), me, AscendingLabels, "Monetary");
    if ml.Err? {
      return Raised(ml.error);
    }
    t.extra := Assign(t.extra, Labels("M_Score", ml.value));
    if !(AllPresent(rl.value) && AllPresent(fl.value) && AllPresent(ml.value)) {
      return Raised(NaNToInt);
    }
    var r, f, m := ToInts(rl.value), ToInts(fl.value), ToInts(ml.value);
    t.extra := Assign(t.extra, Ints("R_Score", r));
    t.extra := Assign(t.extra, Ints("F_Score", f));
    t.extra := Assign(t.extra, Ints("M_Score", m));
    t.extra := Assign(t.extra, Ints("RFM_Score", Totals(r, f, m)));
    t.extra := Assign(t.extra, Texts("RFM_Group", Groups(r, f, m)));
    return Returned(t);
  }

  // ---------------------------------------------------------------------------
  // Bins and labels

  /** `Bin` picks the one bin whose interval holds `x`. */
  lemma BinUnique(e: seq<real>, x: real, b: int)
    requires |e| == 6 && StrictlyIncreasing(e) && e[0] <= x <= e[5]
    requires 1 <= b <= 5 && e[b - 1] <= x <= e[b] && (b > 1 ==> e[b - 1] < x)
    ensures Bin(e, x) == b
  {
  }

  /** A larger value never lands in a lower bin. */
  lemma BinMonotone(e: seq<real>, x: real, y: real)
    requires |e| == 6 && StrictlyIncreasing(e) && e[0] <= x <= y <= e[5]
    ensures Bin(e, x) <= Bin(e, y)
  {
  }

  lemma DistinctEdgesIncrease(e: seq<real>)
    requires NonDecreasing(e) && Distinct(e)
    ensures StrictlyIncreasing(e)
  {
  }

  /** The decimal text of a score 1..5 is one digit, and reading it back gives the score. */
  lemma GroupTextShape(r: int, f: int, m: int)
    requires 1 <= r <= 5 && 1 <= f <= 5 && 1 <= m <= 5
    ensures GroupText(r, f, m) == [Digit(r), Digit(f), Digit(m)]
    ensures forall k :: 0 <= k < 3 ==> '1' <= GroupText(r, f, m)[k] <= '5'
    ensures GroupText(r, f, m)[0] as int - '0' as int == r
    ensures GroupText(r, f, m)[1] as int - '0' as int == f
    ensures GroupText(r, f, m)[2] as int - '0' as int == m
  {
  }

  /** The number a string of decimal digits spells. */
  function DigitsValue(s: string): int
    decreases |s|
  {
    if s == [] then 0 else DigitsValue(s[..|s| - 1]) * 10 + (s[|s| - 1] as int - '0' as int)
  }

  /** `str` of a non-negative integer is made of digits and reads back as that integer. */
  lemma {:induction false} NatTextRoundTrip(n: nat)
    ensures forall k :: 0 <= k < |NatText(n)| ==> '0' <= NatText(n)[k] <= '9'
    ensures DigitsValue(NatText(n)) == n
    decreases n
  {
    if n >= 10 {
      NatTextRoundTrip(n / 10);
      var s := NatText(n);
      assert s[..|s| - 1] == NatText(n / 10);
    }
  }

  // ---------------------------------------------------------------------------
  // Column assignment

  lemma {:induction false} AssignAppends(cols: seq<Column>, c: Column)
    requires forall i :: 0 <= i < |cols| ==> cols[i].name != c.name
    ensures Assign(cols, c) == cols + [c]
    decreases |cols|
  {
    if cols != [] {
      AssignAppends(cols[1..], c);
      assert cols == [cols[0]] + cols[1..];
    }
  }

  lemma {:induction false} AssignReplaces(pre: seq<Column>, c: Column, post: seq<Column>, d: Column)
    requires d.name == c.name
    requires forall i :: 0 <= i < |pre| ==> pre[i].name != c.name
    ensures Assign(pre + [c] + post, d) == pre + [d] + post
    decreases |pre|
  {
    if pre == [] {
      assert ([c] + post)[1..] == post;
    } else {
      assert (pre + [c] + post)[1..] == pre[1..] + [c] + post;
      AssignReplaces(pre[1..], c, post, d);
    }
  }

  /** None of the table's columns is one the scorer writes. */
  predicate FreshNames(cols: seq<Column>)
  {
    forall i :: 0 <= i < |cols| ==> cols[i].name !in {"R_Score", "F_Score", "M_Score", "RFM_Score", "RFM_Group"}
  }

  // ---------------------------------------------------------------------------
  // Scoring

  /** Scoring raises exactly when the table is empty, a Recency is NaN, or the
      edges of some metric repeat. */
  lemma ScoringSucceedsIff(rows: seq<RfmRow>, cols: seq<Column>, re: seq<real>, fe: seq<real>, me: seq<real>)
    requires EdgesFit(rows, re, fe, me)
    ensures Score(rows, cols, re, fe, me).error.None? <==>
      |rows| > 0 && (forall i :: 0 <= i < |rows| ==> rows[i].recency.Some?) &&
      Distinct(re) && Distinct(fe) && Distinct(me)
  {
    var rv, fv, mv := RecencyValues(rows), FrequencyValues(rows), MonetaryValues(rows);
    if |rows| > 0 {
      assert fv[0].Some? && mv[0].Some?;
      if forall i :: 0 <= i < |rows| ==> rows[i].recency.Some? {
        assert rv[0].Some?;
      }
    }
    if Score(rows, cols, re, fe, me).error.None? {
      var rl := QCut(rv, re, RecencyLabels, "Recency");
      assert rl.Ok? && AllPresent(rl.value);
      forall i | 0 <= i < |rows|
        ensures rows[i].recency.Some?
      {
        assert rl.value[i].Some?;
      }
    }
  }

  /** A failed scoring writes no integer score: the table keeps its columns and
      gains at most the categorical `R_Score`, `F_Score`, `M_Score` assigned
      before the failure, in that order. */
  lemma ScoringFailureLeavesOnlyLabels(rows: seq<RfmRow>, cols: seq<Column>, re: seq<real>, fe: seq<real>, me: seq<real>)
    requires EdgesFit(rows, re, fe, me) && FreshNames(cols)
    requires Score(rows, cols, re, fe, me).error.Some?
    ensures var out := Score(rows, cols, re, fe, me).columns;
      |cols| <= |out| <= |cols| + 3 && out[..|cols|] == cols &&
      forall k :: |cols| <= k < |out| ==>
        out[k].Labels? && out[k].name == ["R_Score", "F_Score", "M_Score"][k - |cols|]
  {
    var added := FailedColumns(rows, cols, re, fe, me);
    var out := Score(rows, cols, re, fe, me).columns;
    assert out[..|cols|] == cols;
  }

  /** The columns a failed scoring appends, one per label assignment that ran. */
  lemma FailedColumns(rows: seq<RfmRow>, cols: seq<Column>, re: seq<real>, fe: seq<real>, me: seq<real>)
      returns (added: seq<Column>)
    requires EdgesFit(rows, re, fe, me) && FreshNames(cols)
    requires Score(rows, cols, re, fe, me).error.Some?
    ensures Score(rows, cols, re, fe, me).columns == cols + added && |added| <= 3
    ensures forall k :: 0 <= k < |added| ==> added[k].Labels? && added[k].name == ["R_Score", "F_Score", "M_Score"][k]
  {
    var rl := QCut(RecencyValues(rows), re, RecencyLabels, "Recency");
    var fl := QCut(FrequencyValues(rows), fe, AscendingLabels, "Frequency");
    var ml := QCut(MonetaryValues(rows), me, AscendingLabels, "Monetary");
    if rl.Err? {
      added := [];
      assert cols + added == cols;
    } else {
      var lr := Labels("R_Score", rl.value);
      AssignAppends(cols, lr);
      if fl.Err? {
        added := [lr];
      } else {
        var lf := Labels("F_Score", fl.value);
        AssignAppends(cols + [lr], lf);
        assert cols + [lr] + [lf] == cols + [lr, lf];
        if ml.Err? {
          added := [lr, lf];
        } else {
          var lm := Labels("M_Score", ml.value);
          AssignAppends(cols + [lr, lf], lm);
          added := [lr, lf, lm];
          assert cols + [lr, lf] + [lm] == cols + added;
        }
      }
    }
  }

  /** `qcut` gives a NaN value a NaN label, and a present value the label of the
      one bin whose interval holds it: `(e[b-1], e[b]]`, the first bin closed on
      the left as well. */
  lemma QCutLabel(values: seq<Option<int>>, e: seq<real>, labels: seq<int>, metric: string, i: int)
    requires |labels| == 5 && QuintileEdges(e, values) && QCut(values, e, labels, metric).Ok?
    requires 0 <= i < |values|
    ensures values[i].None? ==> QCut(values, e, labels, metric).value[i].None?
    ensures forall b ::
      (values[i].Some? && 1 <= b <= 5 &&
       e[b - 1] <= values[i].value as real <= e[b] && (b > 1 ==> e[b - 1] < values[i].value as real)) ==>
        QCut(values, e, labels, metric).value[i] == Some(labels[b - 1])
  {
    DistinctEdgesIncrease(e);
    if values[i].Some? {
      var x := values[i].value as real;
      forall b | 1 <= b <= 5 && e[b - 1] <= x <= e[b] && (b > 1 ==> e[b - 1] < x)
        ensures QCut(values, e, labels, metric).value[i] == Some(labels[b - 1])
      {
        BinUnique(e, x, b);
      }
    }
  }

  /** The columns a successful scoring leaves: the caller's, then the five it appends. */
  lemma ScoredColumns(rows: seq<RfmRow>, cols: seq<Column>, re: seq<real>, fe: seq<real>, me: seq<real>)
      returns (rl: seq<Option<int>>, fl: seq<Option<int>>, ml: seq<Option<int>>)
    requires EdgesFit(rows, re, fe, me) && FreshNames(cols)
    requires Score(rows, cols, re, fe, me).error.None?
    ensures QCut(RecencyValues(rows), re, RecencyLabels, "Recency") == Ok(rl)
    ensures QCut(FrequencyValues(rows), fe, AscendingLabels, "Frequency") == Ok(fl)
    ensures QCut(MonetaryValues(rows), me, AscendingLabels, "Monetary") == Ok(ml)
    ensures AllPresent(rl) && AllPresent(fl) && AllPresent(ml) && |rl| == |fl| == |ml| == |rows|
    ensures var r, f, m := ToInts(rl), ToInts(fl), ToInts(ml);
      Score(rows, cols, re, fe, me).columns ==
        cols + [Ints("R_Score", r), Ints("F_Score", f), Ints("M_Score", m),
                Ints("RFM_Score", Totals(r, f, m)), Texts("RFM_Group", Groups(r, f, m))]
  {
    rl := QCut(RecencyValues(rows), re, RecencyLabels, "Recency").value;
    fl := QCut(FrequencyValues(rows), fe, AscendingLabels, "Frequency").value;
    ml := QCut(MonetaryValues(rows), me, AscendingLabels, "Monetary").value;
    var r, f, m := ToInts(rl), ToInts(fl), ToInts(ml);
    AssignSequence(cols, rl, fl, ml, r, f, m);
  }

  /** The six score assignments of lines 18-23, on columns that use none of the
      score names, come to appending the three integer score columns. */
  lemma AssignScores(cols: seq<Column>, rl: seq<Option<int>>, fl: seq<Option<int>>, ml: seq<Option<int>>,
                     r: seq<int>, f: seq<int>, m: seq<int>)
    requires FreshNames(cols)
    ensures var c3 := Assign(Assign(Assign(cols, Labels("R_Score", rl)), Labels("F_Score", fl)), Labels("M_Score", ml));
      Assign(Assign(Assign(c3, Ints("R_Score", r)), Ints("F_Score", f)), Ints("M_Score", m)) ==
        cols + [Ints("R_Score", r), Ints("F_Score", f), Ints("M_Score", m)]
  {
    var lr, lf, lm := Labels("R_Score", rl), Labels("F_Score", fl), Labels("M_Score", ml);
    AssignLabels(cols, lr, lf, lm);
    var ir, fi, im := Ints("R_Score", r), Ints("F_Score", f), Ints("M_Score", m);
    AssignReplaces(cols, lr, [lf, lm], ir);
    assert cols + [ir] + [lf, lm] == (cols + [ir]) + [lf] + [lm];
    AssignReplaces(cols + [ir], lf, [lm], fi);
    assert (cols + [ir]) + [fi] + [lm] == (cols + [ir, fi]) + [lm] + [];
    AssignReplaces(cols + [ir, fi], lm, [], im);
    assert cols + [ir, fi] + [im] + [] == cols + [ir, fi, im];
  }

  /** The three label assignments of lines 18-20 append their columns. */
  lemma AssignLabels(cols: seq<Column>, lr: Column, lf: Column, lm: Column)
    requires FreshNames(cols) && lr.name == "R_Score" && lf.name == "F_Score" && lm.name == "M_Score"
    ensures Assign(Assign(Assign(cols, lr), lf), lm) == cols + [lr] + [lf, lm]
  {
    AssignAppends(cols, lr);
    AssignAppends(cols + [lr], lf);
    AssignAppends(cols + [lr] + [lf], lm);
    assert cols + [lr] + [lf] + [lm] == cols + [lr] + [lf, lm];
  }

  /** The eight assignments of a successful scoring, on columns that use none of
      the score names, come to appending the five final columns. */
  lemma AssignSequence(cols: seq<Column>, rl: seq<Option<int>>, fl: seq<Option<int>>, ml: seq<Option<int>>,
                       r: seq<int>, f: seq<int>, m: seq<int>)
    requires FreshNames(cols) && |r| == |f| == |m|
    ensures var c3 := Assign(Assign(Assign(cols, Labels("R_Score", rl)), Labels("F_Score", fl)), Labels("M_Score", ml));
      var c4 := Assign(Assign(Assign(c3, Ints("R_Score", r)), Ints("F_Score", f)), Ints("M_Score", m));
      Assign(Assign(c4, Ints("RFM_Score", Totals(r, f, m))), Texts("RFM_Group", Groups(r, f, m))) ==
        cols + [Ints("R_Score", r), Ints("F_Score", f), Ints("M_Score", m),
                Ints("RFM_Score", Totals(r, f, m)), Texts("RFM_Group", Groups(r, f, m))]
  {
    AssignScores(cols, rl, fl, ml, r, f, m);
    var c4 := cols + [Ints("R_Score", r), Ints("F_Score", f), Ints("M_Score", m)];
    var it, ig := Ints("RFM_Score", Totals(r, f, m)), Texts("RFM_Group", Groups(r, f, m));
    assert forall i :: 0 <= i < |c4| ==> c4[i].name != it.name && c4[i].name != ig.name;
    AssignAppends(c4, it);
    AssignAppends(c4 + [it], ig);
    assert c4 + [it] + [ig] == cols + [Ints("R_Score", r), Ints("F_Score", f), Ints("M_Score", m), it, ig];
  }

  /** With every label present, the integer score of each value is its bin's label. */
  lemma IntScores(values: seq<Option<int>>, e: seq<real>, labels: seq<int>, metric: string)
    requires |labels| == 5 && QuintileEdges(e, values) && QCut(values, e, labels, metric).Ok?
    requires AllPresent(QCut(values, e, labels, metric).value)
    ensures StrictlyIncreasing(e)
    ensures forall i :: 0 <= i < |values| ==>
      values[i].Some? && e[0] <= values[i].value as real <= e[5] &&
      ToInts(QCut(values, e, labels, metric).value)[i] == labels[Bin(e, values[i].value as real) - 1]
  {
    DistinctEdgesIncrease(e);
    var l := QCut(values, e, labels, metric).value;
    forall i | 0 <= i < |values|
      ensures values[i].Some? && e[0] <= values[i].value as real <= e[5]
      ensures ToInts(l)[i] == labels[Bin(e, values[i].value as real) - 1]
    {
      QCutLabel(values, e, labels, metric, i);
      assert l[i].Some?;
      var b := Bin(e, values[i].value as real);
      assert l[i] == Some(labels[b - 1]);
    }
  }

  /** A successful scoring appends exactly five columns, in order, and leaves the
      others as they were: `R_Score` is the reversed bin of Recency (6 - bin),
      `F_Score` and `M_Score` the bins of Frequency and Monetary, `RFM_Score`
      their sum, and `RFM_Group` their decimal texts concatenated. */
  lemma ScoringAddsFiveColumns(rows: seq<RfmRow>, cols: seq<Column>, re: seq<real>, fe: seq<real>, me: seq<real>)
    requires EdgesFit(rows, re, fe, me) && FreshNames(cols)
    requires Score(rows, cols, re, fe, me).error.None?
    ensures StrictlyIncreasing(re) && StrictlyIncreasing(fe) && StrictlyIncreasing(me)
    ensures forall i :: 0 <= i < |rows| ==>
      rows[i].recency.Some? &&
      re[0] <= rows[i].recency.value as real <= re[5] &&
      fe[0] <= rows[i].frequency as real <= fe[5] &&
      me[0] <= rows[i].monetary as real <= me[5]
    ensures var out, n := Score(rows, cols, re, fe, me).columns, |cols|;
      |out| == n + 5 && out[..n] == cols &&
      out[n].Ints? && out[n].name == "R_Score" && |out[n].ints| == |rows| &&
      out[n + 1].Ints? && out[n + 1].name == "F_Score" && |out[n + 1].ints| == |rows| &&
      out[n + 2].Ints? && out[n + 2].name == "M_Score" && |out[n + 2].ints| == |rows| &&
      out[n + 3].Ints? && out[n + 3].name == "RFM_Score" && |out[n + 3].ints| == |rows| &&
      out[n + 4].Texts? && out[n + 4].name == "RFM_Group" && |out[n + 4].texts| == |rows| &&
      forall i :: 0 <= i < |rows| ==>
        out[n].ints[i] == 6 - Bin(re, rows[i].recency.value as real) &&
        out[n + 1].ints[i] == Bin(fe, rows[i].frequency as real) &&
        out[n + 2].ints[i] == Bin(me, rows[i].monetary as real) &&
        out[n + 3].ints[i] == out[n].ints[i] + out[n + 1].ints[i] + out[n + 2].ints[i] &&
        out[n + 4].texts[i] == GroupText(out[n].ints[i], out[n + 1].ints[i], out[n + 2].ints[i])
  {
    var rl, fl, ml := ScoredColumns(rows, cols, re, fe, me);
    RowBins(rows, re, fe, me, rl, fl, ml);
    var r, f, m := ToInts(rl), ToInts(fl), ToInts(ml);
    var out, n := Score(rows, cols, re, fe, me).columns, |cols|;
    assert out[n] == Ints("R_Score", r) && out[n + 1] == Ints("F_Score", f) && out[n + 2] == Ints("M_Score", m);
    assert out[n + 3] == Ints("RFM_Score", Totals(r, f, m)) && out[n + 4] == Texts("RFM_Group", Groups(r, f, m));
    assert out[..n] == cols;
  }

  /** Row by row, the integer scores are the bins of the row's metrics, Recency's reversed. */
  lemma RowBins(rows: seq<RfmRow>, re: seq<real>, fe: seq<real>, me: seq<real>,
                rl: seq<Option<int>>, fl: seq<Option<int>>, ml: seq<Option<int>>)
    requires EdgesFit(rows, re, fe, me)
    requires QCut(RecencyValues(rows), re, RecencyLabels, "Recency") == Ok(rl)
    requires QCut(FrequencyValues(rows), fe, AscendingLabels, "Frequency") == Ok(fl)
    requires QCut(MonetaryValues(rows), me, AscendingLabels, "Monetary") == Ok(ml)
    requires AllPresent(rl) && AllPresent(fl) && AllPresent(ml)
    ensures StrictlyIncreasing(re) && StrictlyIncreasing(fe) && StrictlyIncreasing(me)
    ensures |rl| == |fl| == |ml| == |rows|
    ensures forall i :: 0 <= i < |rows| ==>
      rows[i].recency.Some? &&
      re[0] <= rows[i].recency.value as real <= re[5] &&
      fe[0] <= rows[i].frequency as real <= fe[5] &&
      me[0] <= rows[i].monetary as real <= me[5] &&
      ToInts(rl)[i] == 6 - Bin(re, rows[i].recency.value as real) &&
      ToInts(fl)[i] == Bin(fe, rows[i].frequency as real) &&
      ToInts(ml)[i] == Bin(me, rows[i].monetary as real)
  {
    RecencyBins(rows, re, rl);
    FrequencyBins(rows, fe, fl);
    MonetaryBins(rows, me, ml);
  }

  lemma RecencyBins(rows: seq<RfmRow>, re: seq<real>, rl: seq<Option<int>>)
    requires QuintileEdges(re, RecencyValues(rows))
    requires QCut(RecencyValues(rows), re, RecencyLabels, "Recency") == Ok(rl) && AllPresent(rl)
    ensures StrictlyIncreasing(re) && |rl| == |rows|
    ensures forall i :: 0 <= i < |rows| ==>
      rows[i].recency.Some? && re[0] <= rows[i].recency.value as real <= re[5] &&
      ToInts(rl)[i] == 6 - Bin(re, rows[i].recency.value as real)
  {
    var rv := RecencyValues(rows);
    IntScores(rv, re, RecencyLabels, "Recency");
    forall i | 0 <= i < |rows|
      ensures rows[i].recency.Some? && re[0] <= rows[i].recency.value as real <= re[5]
      ensures ToInts(rl)[i] == 6 - Bin(re, rows[i].recency.value as real)
    {
      assert rv[i] == rows[i].recency;
    }
  }

  lemma FrequencyBins(rows: seq<RfmRow>, fe: seq<real>, fl: seq<Option<int>>)
    requires QuintileEdges(fe, FrequencyValues(rows))
    requires QCut(FrequencyValues(rows), fe, AscendingLabels, "Frequency") == Ok(fl) && AllPresent(fl)
    ensures StrictlyIncreasing(fe) && |fl| == |rows|
    ensures forall i :: 0 <= i < |rows| ==>
      fe[0] <= rows[i].frequency as real <= fe[5] &&
      ToInts(fl)[i] == Bin(fe, rows[i].frequency as real)
  {
    var fv := FrequencyValues(rows);
    IntScores(fv, fe, AscendingLabels, "Frequency");
    forall i | 0 <= i < |rows|
      ensures fe[0] <= rows[i].frequency as real <= fe[5]
      ensures ToInts(fl)[i] == Bin(fe, rows[i].frequency as real)
    {
      assert fv[i] == Some(rows[i].frequency as int);
    }
  }

  lemma MonetaryBins(rows: seq<RfmRow>, me: seq<real>, ml: seq<Option<int>>)
    requires QuintileEdges(me, MonetaryValues(rows))
    requires QCut(MonetaryValues(rows), me, AscendingLabels, "Monetary") == Ok(ml) && AllPresent(ml)
    ensures StrictlyIncreasing(me) && |ml| == |rows|
    ensures forall i :: 0 <= i < |rows| ==>
      me[0] <= rows[i].monetary as real <= me[5] &&
      ToInts(ml)[i] == Bin(me, rows[i].monetary as real)
  {
    var mv := MonetaryValues(rows);
    IntScores(mv, me, AscendingLabels, "Monetary");
    forall i | 0 <= i < |rows|
      ensures me[0] <= rows[i].monetary as real <= me[5]
      ensures ToInts(ml)[i] == Bin(me, rows[i].monetary as real)
    {
      assert mv[i] == Some(rows[i].monetary);
    }
  }

  /** The per-row scores of a successful scoring, as `RowBins` gives them. */
  predicate RowScores(rows: seq<RfmRow>, re: seq<real>, fe: seq<real>, me: seq<real>, r: seq<int>, f: seq<int>, m: seq<int>)
  {
    |re| == 6 && StrictlyIncreasing(re) && |fe| == 6 && StrictlyIncreasing(fe) && |me| == 6 && StrictlyIncreasing(me) &&
    |r| == |f| == |m| == |rows| &&
    forall i :: 0 <= i < |rows| ==>
      rows[i].recency.Some? &&
      re[0] <= rows[i].recency.value as real <= re[5] &&
      fe[0] <= rows[i].frequency as real <= fe[5] &&
      me[0] <= rows[i].monetary as real <= me[5] &&
      r[i] == 6 - Bin(re, rows[i].recency.value as real) &&
      f[i] == Bin(fe, rows[i].frequency as real) &&
      m[i] == Bin(me, rows[i].monetary as real)
  }

  lemma BinsInRange(rows: seq<RfmRow>, re: seq<real>, fe: seq<real>, me: seq<real>, r: seq<int>, f: seq<int>, m: seq<int>)
    requires RowScores(rows, re, fe, me, r, f, m)
    ensures forall i :: 0 <= i < |rows| ==>
      1 <= r[i] <= 5 && 1 <= f[i] <= 5 && 1 <= m[i] <= 5 && 3 <= Totals(r, f, m)[i] <= 15
  {
    forall i | 0 <= i < |rows|
      ensures 1 <= r[i] <= 5 && 1 <= f[i] <= 5 && 1 <= m[i] <= 5
    {
      var br := Bin(re, rows[i].recency.value as real);
      assert r[i] == 6 - br && 1 <= br <= 5;
    }
  }

  lemma GroupsShape(r: seq<int>, f: seq<int>, m: seq<int>)
    requires |r| == |f| == |m|
    requires forall i :: 0 <= i < |r| ==> 1 <= r[i] <= 5 && 1 <= f[i] <= 5 && 1 <= m[i] <= 5
    ensures forall i :: 0 <= i < |r| ==>
      ScoreDigits(Groups(r, f, m)[i]) && Groups(r, f, m)[i] == [Digit(r[i]), Digit(f[i]), Digit(m[i])]
  {
    forall i | 0 <= i < |r|
      ensures ScoreDigits(Groups(r, f, m)[i]) && Groups(r, f, m)[i] == [Digit(r[i]), Digit(f[i]), Digit(m[i])]
    {
      GroupTextShape(r[i], f[i], m[i]);
    }
  }

  /** Bins of Frequency (or, with `monetary`, of Monetary) never decrease as the metric grows. */
  lemma BinsFollowMetric(rows: seq<RfmRow>, e: seq<real>, s: seq<int>, monetary: bool)
    requires |e| == 6 && StrictlyIncreasing(e) && |s| == |rows|
    requires forall i :: 0 <= i < |rows| ==>
      e[0] <= Metric(rows[i], monetary) as real <= e[5] && s[i] == Bin(e, Metric(rows[i], monetary) as real)
    ensures forall i, j :: 0 <= i < |rows| && 0 <= j < |rows| && Metric(rows[i], monetary) <= Metric(rows[j], monetary) ==>
      s[i] <= s[j]
  {
    forall i, j | 0 <= i < |rows| && 0 <= j < |rows| && Metric(rows[i], monetary) <= Metric(rows[j], monetary)
      ensures s[i] <= s[j]
    {
      BinMonotone(e, Metric(rows[i], monetary) as real, Metric(rows[j], monetary) as real);
    }
  }

  function Metric(row: RfmRow, monetary: bool): int
  {
    if monetary then row.monetary else row.frequency
  }

  lemma ReversedBinsFollowRecency(rows: seq<RfmRow>, re: seq<real>, r: seq<int>)
    requires |re| == 6 && StrictlyIncreasing(re) && |r| == |rows|
    requires forall i :: 0 <= i < |rows| ==>
      rows[i].recency.Some? && re[0] <= rows[i].recency.value as real <= re[5] &&
      r[i] == 6 - Bin(re, rows[i].recency.value as real)
    ensures forall i, j :: 0 <= i < |rows| && 0 <= j < |rows| && rows[i].recency.value <= rows[j].recency.value ==>
      r[i] >= r[j]
  {
    forall i, j | 0 <= i < |rows| && 0 <= j < |rows| && rows[i].recency.value <= rows[j].recency.value
      ensures r[i] >= r[j]
    {
      BinMonotone(re, rows[i].recency.value as real, rows[j].recency.value as real);
    }
  }

  /** The three characters of a row's `RFM_Group`, each a score digit. */
  predicate ScoreDigits(g: string)
  {
    |g| == 3 && forall k :: 0 <= k < |g| ==> '1' <= g[k] <= '5'
  }

  /** Every score is in 1..5 and every `RFM_Score` in 3..15. */
  lemma ScoresInRange(rows: seq<RfmRow>, cols: seq<Column>, re: seq<real>, fe: seq<real>, me: seq<real>)
    requires EdgesFit(rows, re, fe, me) && FreshNames(cols)
    requires Score(rows, cols, re, fe, me).error.None?
    ensures var out, n := Score(rows, cols, re, fe, me).columns, |cols|;
      |out| == n + 5 &&
      out[n].Ints? && out[n + 1].Ints? && out[n + 2].Ints? && out[n + 3].Ints? &&
      |out[n].ints| == |out[n + 1].ints| == |out[n + 2].ints| == |out[n + 3].ints| == |rows| &&
      forall i :: 0 <= i < |rows| ==>
        1 <= out[n].ints[i] <= 5 && 1 <= out[n + 1].ints[i] <= 5 && 1 <= out[n + 2].ints[i] <= 5 &&
        3 <= out[n + 3].ints[i] <= 15
  {
    var rl, fl, ml := ScoredColumns(rows, cols, re, fe, me);
    RowBins(rows, re, fe, me, rl, fl, ml);
    var r, f, m := ToInts(rl), ToInts(fl), ToInts(ml);
    BinsInRange(rows, re, fe, me, r, f, m);
  }

  /** Every `RFM_Group` is three characters among '1'..'5' spelling the row's
      R, F and M scores in that order. */
  lemma GroupsSpellScores(rows: seq<RfmRow>, cols: seq<Column>, re: seq<real>, fe: seq<real>, me: seq<real>)
    requires EdgesFit(rows, re, fe, me) && FreshNames(cols)
    requires Score(rows, cols, re, fe, me).error.None?
    ensures var out, n := Score(rows, cols, re, fe, me).columns, |cols|;
      |out| == n + 5 &&
      out[n].Ints? && out[n + 1].Ints? && out[n + 2].Ints? && out[n + 4].Texts? &&
      |out[n].ints| == |out[n + 1].ints| == |out[n + 2].ints| == |out[n + 4].texts| == |rows| &&
      forall i :: 0 <= i < |rows| ==>
        1 <= out[n].ints[i] <= 5 && 1 <= out[n + 1].ints[i] <= 5 && 1 <= out[n + 2].ints[i] <= 5 &&
        ScoreDigits(out[n + 4].texts[i]) &&
        out[n + 4].texts[i] == [Digit(out[n].ints[i]), Digit(out[n + 1].ints[i]), Digit(out[n + 2].ints[i])]
  {
    var rl, fl, ml := ScoredColumns(rows, cols, re, fe, me);
    RowBins(rows, re, fe, me, rl, fl, ml);
    var r, f, m := ToInts(rl), ToInts(fl), ToInts(ml);
    BinsInRange(rows, re, fe, me, r, f, m);
    GroupsShape(r, f, m);
  }

  /** `F_Score` and `M_Score` never decrease as their metric grows, so equal
      metrics get equal scores. */
  lemma ScoresMonotone(rows: seq<RfmRow>, cols: seq<Column>, re: seq<real>, fe: seq<real>, me: seq<real>)
    requires EdgesFit(rows, re, fe, me) && FreshNames(cols)
    requires Score(rows, cols, re, fe, me).error.None?
    ensures var out, n := Score(rows, cols, re, fe, me).columns, |cols|;
      |out| == n + 5 && out[n + 1].Ints? && out[n + 2].Ints? &&
      |out[n + 1].ints| == |out[n + 2].ints| == |rows| &&
      forall i, j :: 0 <= i < |rows| && 0 <= j < |rows| ==>
        (rows[i].frequency <= rows[j].frequency ==> out[n + 1].ints[i] <= out[n + 1].ints[j]) &&
        (rows[i].monetary <= rows[j].monetary ==> out[n + 2].ints[i] <= out[n + 2].ints[j])
  {
    var rl, fl, ml := ScoredColumns(rows, cols, re, fe, me);
    RowBins(rows, re, fe, me, rl, fl, ml);
    var r, f, m := ToInts(rl), ToInts(fl), ToInts(ml);
    BinsFollowMetric(rows, fe, f, false);
    BinsFollowMetric(rows, me, m, true);
  }

  /** `R_Score` runs against Recency: it never increases as Recency grows, the
      lowest Recency bin scores 5 and the highest scores 1. */
  lemma RecencyScoreReversed(rows: seq<RfmRow>, cols: seq<Column>, re: seq<real>, fe: seq<real>, me: seq<real>)
    requires EdgesFit(rows, re, fe, me) && FreshNames(cols)
    requires Score(rows, cols, re, fe, me).error.None?
    ensures |re| == 6 && forall i :: 0 <= i < |rows| ==> rows[i].recency.Some?
    ensures var out, n := Score(rows, cols, re, fe, me).columns, |cols|;
      |out| == n + 5 && out[n].Ints? && |out[n].ints| == |rows| &&
      (forall i :: 0 <= i < |rows| ==>
        (rows[i].recency.value as real <= re[1] ==> out[n].ints[i] == 5) &&
        (rows[i].recency.value as real > re[4] ==> out[n].ints[i] == 1)) &&
      forall i, j :: 0 <= i < |rows| && 0 <= j < |rows| ==>
        (rows[i].recency.value <= rows[j].recency.value ==> out[n].ints[i] >= out[n].ints[j])
  {
    var rl, fl, ml := ScoredColumns(rows, cols, re, fe, me);
    RowBins(rows, re, fe, me, rl, fl, ml);
    var r, f, m := ToInts(rl), ToInts(fl), ToInts(ml);
    ReversedBinsFollowRecency(rows, re, r);
  }
}
