/** The RFM aggregator, `calculate_rfm_metrics`: one row per customer with
    Recency, Frequency and Monetary, joined with demographics taken from the
    customer's first and last rows. */
module Aggregator {
  import opened Common
  import opened Cleaner

  /** One day in nanoseconds, the resolution of pandas timestamps. */
  const DAY: int := 86_400_000_000_000

  /** The later of two dates; a missing date (NaT) is skipped, as `max()` skips it. */
  function LaterOf(a: Option<int>, b: Option<int>): Option<int>
  {
    match (a, b)
    case (None, _) => b
    case (_, None) => a
    case (Some(x), Some(y)) => if x < y then b else a
  }

  /** `data['TransactionDate'].max()`: the latest parsed date, or NaT when there is none. */
  function LatestDate(rows: seq<Row>): Option<int>
    decreases |rows|
  {
    if rows == [] then None else LaterOf(rows[0].transactionDate, LatestDate(rows[1..]))
  }

  /** `max() + pd.Timedelta(days=1)`; NaT stays NaT. */
  function ReferenceDate(rows: seq<Row>): Option<int>
  {
    match LatestDate(rows)
    case None => None
    case Some(d) => Some(d + DAY)
  }

  /** One `groupby('CustomerID')` group: the customer's rows, in table order. */
  function CustomerRows(rows: seq<Row>, c: string): seq<Row>
    decreases |rows|
  {
    if rows == [] then []
    else (if rows[0].customerId == c then [rows[0]] else []) + CustomerRows(rows[1..], c)
  }

  /** `sum` of the amount column. */
  function TotalAmount(rows: seq<Row>): int
    decreases |rows|
  {
    if rows == [] then 0 else rows[0].transactionAmount + TotalAmount(rows[1..])
  }

  /** `(reference_date - x.max()).days`: `Timedelta.days` rounds toward minus
      infinity, which is Dafny's `/` for a positive divisor. NaN when either date is NaT. */
  function Recency(rows: seq<Row>, c: string): Option<int>
  {
    match (ReferenceDate(rows), LatestDate(CustomerRows(rows, c)))
    case (Some(reference), Some(latest)) => Some((reference - latest) / DAY)
    case _ => None
  }

  function CustomerIds(rows: seq<Row>): seq<string>
  {
    seq(|rows|, i requires 0 <= i < |rows| => rows[i].customerId)
  }

  /** The group keys in the order `groupby` yields them: distinct and ascending. */
  function Customers(rows: seq<Row>): seq<string>
  {
    SortedKeys(CustomerIds(rows))
  }

  datatype MetricRow = MetricRow(customerId: string, recency: Option<int>, frequency: nat, monetary: int)

  /** The aggregation of lines 72-76 for one customer: the `count` of transaction
      ids (never missing after cleaning) and the `sum` of amounts. */
  function MetricsFor(rows: seq<Row>, c: string): MetricRow
  {
    var group := CustomerRows(rows, c);
    MetricRow(c, Recency(rows, c), |group|, TotalAmount(group))
  }

  /** `rfm_df` before the merge. */
  function Metrics(rows: seq<Row>): seq<MetricRow>
  {
    var keys := Customers(rows);
    seq(|keys|, i requires 0 <= i < |keys| => MetricsFor(rows, keys[i]))
  }

  datatype Demographics = Demographics(customerDob: string, custGender: string, custLocation: string, custAccountBalance: int)

  datatype DemographicRow = DemographicRow(customerId: string, demographics: Demographics)

  /** `first` DOB, gender and location, `last` balance, of one group (no cell is
      missing after cleaning, so `first`/`last` are the first and last rows). */
  function DemographicsOf(group: seq<Row>): Demographics
    requires group != []
  {
    Demographics(group[0].customerDob, group[0].custGender, group[0].custLocation,
                 group[|group| - 1].custAccountBalance)
  }

  /** `customer_demographics`. */
  function CustomerDemographics(rows: seq<Row>): seq<DemographicRow>
  {
    var keys := Customers(rows);
    CustomersHaveRows(rows);
    seq(|keys|, i requires 0 <= i < |keys| && CustomerRows(rows, keys[i]) != [] =>
      DemographicRow(keys[i], DemographicsOf(CustomerRows(rows, keys[i]))))
  }

  /** A row of the merged table; `demographics` is `None` where the left merge found no match (NaN cells). */
  datatype RfmRow = RfmRow(customerId: string, recency: Option<int>, frequency: nat, monetary: int,
                           demographics: Option<Demographics>)

  /** The demographics of the right-hand rows whose key is `c`, in order. */
  function Matches(right: seq<DemographicRow>, c: string): seq<Demographics>
    decreases |right|
  {
    if right == [] then []
    else (if right[0].customerId == c then [right[0].demographics] else []) + Matches(right[1..], c)
  }

  /** What a left merge makes of one left row: one row per match, or one row with NaN cells. */
  function MergeRow(m: MetricRow, right: seq<DemographicRow>): seq<RfmRow>
  {
    var ms := Matches(right, m.customerId);
    if ms == [] then [RfmRow(m.customerId, m.recency, m.frequency, m.monetary, None)]
    else seq(|ms|, i requires 0 <= i < |ms| => RfmRow(m.customerId, m.recency, m.frequency, m.monetary, Some(ms[i])))
  }

  /** `left.merge(right, on='CustomerID', how='left')`: left order, then right order. */
  function LeftMerge(left: seq<MetricRow>, right: seq<DemographicRow>): seq<RfmRow>
    decreases |left|
  {
    if left == [] then [] else MergeRow(left[0], right) + LeftMerge(left[1..], right)
  }

  /** `calculate_rfm_metrics`: absent input gives absent output. */
  function CalculateRfmMetrics(data: Option<seq<Row>>): (r: Option<seq<RfmRow>>)
    ensures r.None? <==> data.None?
  {
    match data
    case None => None
    case Some(rows) => Some(LeftMerge(Metrics(rows), CustomerDemographics(rows)))
  }

  // ---------------------------------------------------------------------------
  // Groups

  /** A group holds exactly the customer's rows, and is never empty for a key. */
  lemma {:induction false} CustomerRowsSpec(rows: seq<Row>, c: string)
    ensures forall r :: r in CustomerRows(rows, c) <==> r in rows && r.customerId == c
    ensures c in CustomerIds(rows) ==> CustomerRows(rows, c) != []
    decreases |rows|
  {
    if rows != [] {
      CustomerRowsSpec(rows[1..], c);
      assert rows == [rows[0]] + rows[1..];
      if c in CustomerIds(rows) && rows[0].customerId != c {
        var i :| 0 <= i < |rows| && rows[i].customerId == c;
        assert CustomerIds(rows[1..])[i - 1] == c;
      }
    }
  }

  lemma CustomersHaveRows(rows: seq<Row>)
    ensures forall i :: 0 <= i < |Customers(rows)| ==> CustomerRows(rows, Customers(rows)[i]) != []
  {
    SortedKeysSpec(CustomerIds(rows));
    forall i | 0 <= i < |Customers(rows)|
      ensures CustomerRows(rows, Customers(rows)[i]) != []
    {
      CustomerRowsSpec(rows, Customers(rows)[i]);
    }
  }

  /** The first row of a group is the customer's first row in table order. */
  lemma {:induction false} GroupStartsAtFirstRow(rows: seq<Row>, i: nat)
    requires i < |rows|
    requires forall j :: 0 <= j < i ==> rows[j].customerId != rows[i].customerId
    ensures CustomerRows(rows, rows[i].customerId) != []
    ensures CustomerRows(rows, rows[i].customerId)[0] == rows[i]
    decreases i
  {
    if i > 0 {
      GroupStartsAtFirstRow(rows[1..], i - 1);
    }
  }

  lemma {:induction false} GroupEmptyWhenAbsent(rows: seq<Row>, c: string)
    requires forall j :: 0 <= j < |rows| ==> rows[j].customerId != c
    ensures CustomerRows(rows, c) == []
    decreases |rows|
  {
    if rows != [] {
      GroupEmptyWhenAbsent(rows[1..], c);
    }
  }

  /** The last row of a group is the customer's last row in table order. */
  lemma {:induction false} GroupEndsAtLastRow(rows: seq<Row>, i: nat)
    requires i < |rows|
    requires forall j :: i < j < |rows| ==> rows[j].customerId != rows[i].customerId
    ensures CustomerRows(rows, rows[i].customerId) != []
    ensures CustomerRows(rows, rows[i].customerId)[|CustomerRows(rows, rows[i].customerId)| - 1] == rows[i]
    decreases i
  {
    var c := rows[i].customerId;
    if i > 0 {
      GroupEndsAtLastRow(rows[1..], i - 1);
    } else {
      GroupEmptyWhenAbsent(rows[1..], c);
    }
  }

  /** Demographics come from the customer's first row in table order (DOB, gender,
      location) and from the last (balance). */
  lemma DemographicsFromFirstAndLast(rows: seq<Row>, first: nat, last: nat)
    requires first <= last < |rows| && rows[first].customerId == rows[last].customerId
    requires forall j :: 0 <= j < first ==> rows[j].customerId != rows[first].customerId
    requires forall j :: last < j < |rows| ==> rows[j].customerId != rows[last].customerId
    ensures CustomerRows(rows, rows[first].customerId) != []
    ensures DemographicsOf(CustomerRows(rows, rows[first].customerId)) ==
            Demographics(rows[first].customerDob, rows[first].custGender, rows[first].custLocation,
                         rows[last].custAccountBalance)
  {
    GroupStartsAtFirstRow(rows, first);
    GroupEndsAtLastRow(rows, last);
  }

  // ---------------------------------------------------------------------------
  // Recency

  /** `max()` is attained by some row, bounds every parsed date, and is NaT only when every date is. */
  lemma {:induction false} LatestDateSpec(rows: seq<Row>)
    ensures LatestDate(rows).None? <==> forall i :: 0 <= i < |rows| ==> rows[i].transactionDate.None?
    ensures LatestDate(rows).Some? ==> exists i :: 0 <= i < |rows| && rows[i].transactionDate == LatestDate(rows)
    ensures forall i :: 0 <= i < |rows| && rows[i].transactionDate.Some? ==>
              LatestDate(rows).Some? && rows[i].transactionDate.value <= LatestDate(rows).value
    decreases |rows|
  {
    if rows != [] {
      var rest := rows[1..];
      LatestDateSpec(rest);
      assert forall i :: 1 <= i < |rows| ==> rows[i] == rest[i - 1];
      if LatestDate(rows).Some? && LatestDate(rows) != rows[0].transactionDate {
        var i :| 0 <= i < |rest| && rest[i].transactionDate == LatestDate(rest);
        assert rows[i + 1].transactionDate == LatestDate(rows);
      }
    }
  }

  /** A customer's latest date never passes the table's latest date. */
  lemma GroupLatestBounded(rows: seq<Row>, c: string)
    requires LatestDate(CustomerRows(rows, c)).Some?
    ensures LatestDate(rows).Some?
    ensures LatestDate(CustomerRows(rows, c)).value <= LatestDate(rows).value
  {
    var group := CustomerRows(rows, c);
    LatestDateSpec(group);
    LatestDateSpec(rows);
    CustomerRowsSpec(rows, c);
    var k :| 0 <= k < |group| && group[k].transactionDate == LatestDate(group);
    assert group[k] in rows;
  }

  /** Every defined Recency is at least one day. */
  lemma RecencyAtLeastOne(rows: seq<Row>, c: string)
    requires Recency(rows, c).Some?
    ensures Recency(rows, c).value >= 1
  {
    GroupLatestBounded(rows, c);
    var latest := LatestDate(CustomerRows(rows, c)).value;
    var reference := LatestDate(rows).value + DAY;
    assert reference - latest >= DAY;
  }

  /** The customer holding the table's latest date has Recency exactly one. */
  lemma LatestCustomerRecencyOne(rows: seq<Row>, i: nat)
    requires i < |rows| && rows[i].transactionDate.Some?
    requires rows[i].transactionDate == LatestDate(rows)
    ensures Recency(rows, rows[i].customerId) == Some(1)
  {
    var c := rows[i].customerId;
    var group := CustomerRows(rows, c);
    var k := GroupIndex(rows, i);
    LatestDateSpec(group);
    assert group[k].transactionDate.Some?;
    GroupLatestBounded(rows, c);
    var d := LatestDate(rows).value;
    assert LatestDate(group) == Some(d);
    assert ReferenceDate(rows) == Some(d + DAY);
    assert (d + DAY - d) / DAY == 1;
  }

  /** The place of a row in its customer's group. */
  lemma {:induction false} GroupIndex(rows: seq<Row>, i: nat) returns (k: nat)
    requires i < |rows|
    ensures k < |CustomerRows(rows, rows[i].customerId)|
    ensures CustomerRows(rows, rows[i].customerId)[k] == rows[i]
    decreases i
  {
    var c := rows[i].customerId;
    if i == 0 {
      k := 0;
    } else {
      assert rows[1..][i - 1] == rows[i];
      var k' := GroupIndex(rows[1..], i - 1);
      k := if rows[0].customerId == c then k' + 1 else k';
    }
  }

  /** Recency is defined exactly when the customer has a parsed date. */
  lemma RecencyDefinedIff(rows: seq<Row>, c: string)
    ensures Recency(rows, c).Some? <==>
            exists i :: 0 <= i < |rows| && rows[i].customerId == c && rows[i].transactionDate.Some?
  {
    var group := CustomerRows(rows, c);
    CustomerRowsSpec(rows, c);
    LatestDateSpec(group);
    if LatestDate(group).Some? {
      GroupLatestBounded(rows, c);
      var k :| 0 <= k < |group| && group[k].transactionDate == LatestDate(group);
      assert group[k] in rows;
    }
    if exists i :: 0 <= i < |rows| && rows[i].customerId == c && rows[i].transactionDate.Some? {
      var i :| 0 <= i < |rows| && rows[i].customerId == c && rows[i].transactionDate.Some?;
      assert rows[i] in group;
      var k :| 0 <= k < |group| && group[k] == rows[i];
      GroupLatestBounded(rows, c);
    }
  }

  // ---------------------------------------------------------------------------
  // The left merge

  lemma {:induction false} MatchesAbsent(right: seq<DemographicRow>, c: string)
    requires forall j :: 0 <= j < |right| ==> right[j].customerId != c
    ensures Matches(right, c) == []
    decreases |right|
  {
    if right != [] {
      MatchesAbsent(right[1..], c);
    }
  }

  /** With distinct keys on the right, each right key matches exactly its own row. */
  lemma {:induction false} MatchesOfDistinctKeys(right: seq<DemographicRow>, k: nat)
    requires k < |right|
    requires forall i, j :: 0 <= i < j < |right| ==> right[i].customerId != right[j].customerId
    ensures Matches(right, right[k].customerId) == [right[k].demographics]
    decreases |right|
  {
    if k == 0 {
      MatchesAbsent(right[1..], right[0].customerId);
    } else {
      MatchesOfDistinctKeys(right[1..], k - 1);
    }
  }

  /** When every left key matches exactly one right row, the left merge keeps every
      left row once, in order, and attaches that row's demographics. */
  lemma {:induction false} LeftMergeOneToOne(left: seq<MetricRow>, right: seq<DemographicRow>)
    requires forall i :: 0 <= i < |left| ==> |Matches(right, left[i].customerId)| == 1
    ensures |LeftMerge(left, right)| == |left|
    ensures forall i :: 0 <= i < |left| ==>
      LeftMerge(left, right)[i] ==
        RfmRow(left[i].customerId, left[i].recency, left[i].frequency, left[i].monetary,
               Some(Matches(right, left[i].customerId)[0]))
    decreases |left|
  {
    if left != [] {
      LeftMergeOneToOne(left[1..], right);
      var head := MergeRow(left[0], right);
      assert |head| == 1;
      forall i | 0 <= i < |left|
        ensures LeftMerge(left, right)[i] ==
          RfmRow(left[i].customerId, left[i].recency, left[i].frequency, left[i].monetary,
                 Some(Matches(right, left[i].customerId)[0]))
      {
        if i > 0 {
          assert left[i] == left[1..][i - 1];
        }
      }
    }
  }

  /** The table `calculate_rfm_metrics` returns: one row per customer, in ascending
      id order, holding that customer's Recency, row count, amount total and
      first/last demographics; the left merge never leaves a row unmatched. */
  lemma RfmRowsSpec(rows: seq<Row>)
    ensures var out, keys := CalculateRfmMetrics(Some(rows)).value, Customers(rows);
      |out| == |keys| &&
      forall k :: 0 <= k < |out| ==>
        CustomerRows(rows, keys[k]) != [] &&
        out[k] == RfmRow(keys[k], Recency(rows, keys[k]), |CustomerRows(rows, keys[k])|,
                         TotalAmount(CustomerRows(rows, keys[k])),
                         Some(DemographicsOf(CustomerRows(rows, keys[k]))))
  {
    var keys := Customers(rows);
    var left, right := Metrics(rows), CustomerDemographics(rows);
    SortedKeysSpec(CustomerIds(rows));
    CustomersHaveRows(rows);
    forall i | 0 <= i < |left|
      ensures Matches(right, left[i].customerId) == [right[i].demographics]
    {
      MatchesOfDistinctKeys(right, i);
    }
    LeftMergeOneToOne(left, right);
  }

  /** One output row per distinct customer: ids strictly ascending (so never
      repeated), and exactly the customers of the input. */
  lemma OneRowPerCustomer(rows: seq<Row>)
    ensures var out := CalculateRfmMetrics(Some(rows)).value;
      (forall i, j :: 0 <= i < j < |out| ==> Below(out[i].customerId, out[j].customerId)) &&
      (forall c :: c in CustomerIds(rows) <==> exists k :: 0 <= k < |out| && out[k].customerId == c)
  {
    RfmRowsSpec(rows);
    SortedKeysSpec(CustomerIds(rows));
    var out, keys := CalculateRfmMetrics(Some(rows)).value, Customers(rows);
    forall c | c in CustomerIds(rows)
      ensures exists k :: 0 <= k < |out| && out[k].customerId == c
    {
      var k :| 0 <= k < |keys| && keys[k] == c;
      assert out[k].customerId == c;
    }
  }

  /** Frequency is at least one and every defined Recency is at least one. */
  lemma MetricBounds(rows: seq<Row>)
    ensures var out := CalculateRfmMetrics(Some(rows)).value;
      (forall k :: 0 <= k < |out| ==> out[k].frequency >= 1) &&
      (forall k :: 0 <= k < |out| && out[k].recency.Some? ==> out[k].recency.value >= 1)
  {
    RfmRowsSpec(rows);
    var out, keys := CalculateRfmMetrics(Some(rows)).value, Customers(rows);
    forall k | 0 <= k < |out| && out[k].recency.Some?
      ensures out[k].recency.value >= 1
    {
      RecencyAtLeastOne(rows, keys[k]);
    }
  }

  /** A row holding the table's latest date. */
  lemma LatestRow(rows: seq<Row>) returns (i: nat)
    requires LatestDate(rows).Some?
    ensures i < |rows| && rows[i].transactionDate == LatestDate(rows)
  {
    LatestDateSpec(rows);
    i :| 0 <= i < |rows| && rows[i].transactionDate == LatestDate(rows);
  }

  /** The position of a customer among the group keys. */
  lemma KeyPosition(rows: seq<Row>, i: nat) returns (k: nat)
    requires i < |rows|
    ensures k < |Customers(rows)| && Customers(rows)[k] == rows[i].customerId
  {
    SortedKeysSpec(CustomerIds(rows));
    assert CustomerIds(rows)[i] == rows[i].customerId;
    assert rows[i].customerId in Customers(rows);
    k :| 0 <= k < |Customers(rows)| && Customers(rows)[k] == rows[i].customerId;
  }

  /** When any date parsed, the smallest Recency in the table is exactly one. */
  lemma MinimumRecencyIsOne(rows: seq<Row>)
    requires LatestDate(rows).Some?
    ensures var out := CalculateRfmMetrics(Some(rows)).value;
      exists k :: 0 <= k < |out| && out[k].recency == Some(1)
  {
    var i := LatestRow(rows);
    LatestCustomerRecencyOne(rows, i);
    var k := KeyPosition(rows, i);
    RfmRowsSpec(rows);
    assert CalculateRfmMetrics(Some(rows)).value[k].recency == Some(1);
  }

  // ---------------------------------------------------------------------------
  // Totals: grouping neither loses nor duplicates a transaction

  function SumFrequency(out: seq<RfmRow>): int
    decreases |out|
  {
    if out == [] then 0 else out[0].frequency + SumFrequency(out[1..])
  }

  function SumMonetary(out: seq<RfmRow>): int
    decreases |out|
  {
    if out == [] then 0 else out[0].monetary + SumMonetary(out[1..])
  }

  /** The rows whose customer is one of `keys`. */
  function Within(rows: seq<Row>, keys: seq<string>): seq<Row>
    decreases |rows|
  {
    if rows == [] then []
    else (if rows[0].customerId in keys then [rows[0]] else []) + Within(rows[1..], keys)
  }

  lemma {:induction false} WithinSplit(rows: seq<Row>, c: string, keys: seq<string>)
    requires c !in keys
    ensures |Within(rows, [c] + keys)| == |CustomerRows(rows, c)| + |Within(rows, keys)|
    ensures TotalAmount(Within(rows, [c] + keys)) == TotalAmount(CustomerRows(rows, c)) + TotalAmount(Within(rows, keys))
    decreases |rows|
  {
    if rows != [] {
      WithinSplit(rows[1..], c, keys);
      var r := rows[0];
      var wc, g, w := Within(rows[1..], [c] + keys), CustomerRows(rows[1..], c), Within(rows[1..], keys);
      assert ([r] + wc)[1..] == wc && ([r] + g)[1..] == g && ([r] + w)[1..] == w;
      if r.customerId == c {
        assert Within(rows, [c] + keys) == [r] + wc;
        assert CustomerRows(rows, c) == [r] + g;
        assert Within(rows, keys) == w;
      } else if r.customerId in keys {
        assert Within(rows, [c] + keys) == [r] + wc;
        assert CustomerRows(rows, c) == g;
        assert Within(rows, keys) == [r] + w;
      } else {
        assert Within(rows, [c] + keys) == wc;
        assert CustomerRows(rows, c) == g;
        assert Within(rows, keys) == w;
      }
    }
  }

  lemma {:induction false} WithinAll(rows: seq<Row>, keys: seq<string>)
    requires forall i :: 0 <= i < |rows| ==> rows[i].customerId in keys
    ensures Within(rows, keys) == rows
    decreases |rows|
  {
    if rows != [] {
      WithinAll(rows[1..], keys);
    }
  }

  lemma {:induction false} SumsOverKeys(out: seq<RfmRow>, rows: seq<Row>, keys: seq<string>)
    requires |out| == |keys| && Distinct(keys)
    requires forall k :: 0 <= k < |out| ==>
               out[k].frequency == |CustomerRows(rows, keys[k])| &&
               out[k].monetary == TotalAmount(CustomerRows(rows, keys[k]))
    ensures SumFrequency(out) == |Within(rows, keys)|
    ensures SumMonetary(out) == TotalAmount(Within(rows, keys))
    decreases |keys|
  {
    if keys == [] {
      WithinNone(rows);
    } else {
      SumsOverKeys(out[1..], rows, keys[1..]);
      assert keys[0] !in keys[1..];
      WithinSplit(rows, keys[0], keys[1..]);
      assert [keys[0]] + keys[1..] == keys;
    }
  }

  lemma {:induction false} WithinNone(rows: seq<Row>)
    ensures Within(rows, []) == []
    decreases |rows|
  {
    if rows != [] {
      WithinNone(rows[1..]);
    }
  }

  /** Frequencies add up to the number of rows and Monetary values to the total amount. */
  lemma TotalsPreserved(rows: seq<Row>)
    ensures SumFrequency(CalculateRfmMetrics(Some(rows)).value) == |rows|
    ensures SumMonetary(CalculateRfmMetrics(Some(rows)).value) == TotalAmount(rows)
  {
    var out, keys := CalculateRfmMetrics(Some(rows)).value, Customers(rows);
    RfmRowsSpec(rows);
    SortedKeysSpec(CustomerIds(rows));
    SumsOverKeys(out, rows, keys);
    forall i | 0 <= i < |rows|
      ensures rows[i].customerId in keys
    {
      assert CustomerIds(rows)[i] == rows[i].customerId;
    }
    WithinAll(rows, keys);
  }
}
