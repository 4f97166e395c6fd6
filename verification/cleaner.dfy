/** The record cleaner, `preprocess_data`: drop repeated transaction ids (first
    occurrence wins), then drop every row with a missing cell, then coerce the
    date column. */
module Cleaner {
  import opened Common

  /** A ledger row as read from the CSV file: any cell may be missing. The date
      is still text. `otherColumns` holds the remaining columns of the file,
      which cleaning carries along and tests for missing cells. */
  datatype RawRow = RawRow(
    transactionId: Option<string>,
    customerId: Option<string>,
    customerDob: Option<string>,
    custGender: Option<string>,
    custLocation: Option<string>,
    custAccountBalance: Option<int>,
    transactionDate: Option<string>,
    transactionAmount: Option<int>,
    otherColumns: seq<Option<string>>)

  /** A cleaned row: no cell is missing, except a date that did not parse (NaT).
      Dates are timestamps; amounts and balances are in minor currency units. */
  datatype Row = Row(
    transactionId: string,
    customerId: string,
    customerDob: string,
    custGender: string,
    custLocation: string,
    custAccountBalance: int,
    transactionDate: Option<int>,
    transactionAmount: int,
    otherColumns: seq<string>)

  /** No cell of the row is missing (what `dropna` keeps). */
  predicate Complete(r: RawRow)
  {
    r.transactionId.Some? && r.customerId.Some? && r.customerDob.Some? &&
    r.custGender.Some? && r.custLocation.Some? && r.custAccountBalance.Some? &&
    r.transactionDate.Some? && r.transactionAmount.Some? &&
    forall i :: 0 <= i < |r.otherColumns| ==> r.otherColumns[i].Some?
  }

  /** The transaction ids occurring in `rows` (a missing id is an id too, as in `duplicated`). */
  function IdsOf(rows: seq<RawRow>): set<Option<string>>
  {
    set r | r in rows :: r.transactionId
  }

  /** `drop_duplicates(subset=['TransactionID'])`: a row survives when no earlier row has its id. */
  function DropDuplicateIds(rows: seq<RawRow>): seq<RawRow>
    decreases |rows|
  {
    if rows == [] then []
    else
      var prefix, last := rows[..|rows| - 1], rows[|rows| - 1];
      DropDuplicateIds(prefix) + (if last.transactionId in IdsOf(prefix) then [] else [last])
  }

  /** `dropna()`: keep the complete rows, in order. */
  function DropMissing(rows: seq<RawRow>): seq<RawRow>
    decreases |rows|
  {
    if rows == [] then []
    else
      var prefix, last := rows[..|rows| - 1], rows[|rows| - 1];
      DropMissing(prefix) + (if Complete(last) then [last] else [])
  }

  /** `pd.to_datetime(..., errors='coerce')` on one complete row; `parse` is the
      library's text-to-timestamp conversion, `None` where it fails. */
  function CoerceDate(r: RawRow, parse: string -> Option<int>): Row
    requires Complete(r)
  {
    Row(r.transactionId.value, r.customerId.value, r.customerDob.value,
        r.custGender.value, r.custLocation.value, r.custAccountBalance.value,
        parse(r.transactionDate.value), r.transactionAmount.value,
        seq(|r.otherColumns|, i requires 0 <= i < |r.otherColumns| && r.otherColumns[i].Some? =>
          r.otherColumns[i].value))
  }

  function CoerceDates(rows: seq<RawRow>, parse: string -> Option<int>): seq<Row>
    requires forall i :: 0 <= i < |rows| ==> Complete(rows[i])
  {
    seq(|rows|, i requires 0 <= i < |rows| && Complete(rows[i]) => CoerceDate(rows[i], parse))
  }

  /** What `preprocess_data` returns, as one expression: absent input stays absent. */
  function Preprocess(data: Option<seq<RawRow>>, parse: string -> Option<int>): Option<seq<Row>>
  {
    match data
    case None => None
    case Some(rows) =>
      var kept := DropMissing(DropDuplicateIds(rows));
      DropMissingComplete(DropDuplicateIds(rows));
      Some(CoerceDates(kept, parse))
  }

  /** `preprocess_data`, stage by stage on a copy of the caller's rows. */
  method PreprocessData(data: Option<seq<RawRow>>, parse: string -> Option<int>) returns (r: Option<seq<Row>>)
    ensures r == Preprocess(data, parse)
  {
    if data.None? {
      return None;
    }
    var df := data.value;
    var deduped := DropDuplicateIdsLoop(df);
    var complete := DropMissingLoop(deduped);
    DropMissingComplete(deduped);
    var cleaned := CoerceDatesLoop(complete, parse);
    return Some(cleaned);
  }

  /** `df.drop_duplicates(subset=['TransactionID'])`, one row at a time with a set of seen ids. */
  method DropDuplicateIdsLoop(rows: seq<RawRow>) returns (deduped: seq<RawRow>)
    ensures deduped == DropDuplicateIds(rows)
  {
    deduped := [];
    var seen: set<Option<string>> := {};
    var i := 0;
    while i < |rows|
      invariant 0 <= i <= |rows|
      invariant deduped == DropDuplicateIds(rows[..i])
      invariant seen == IdsOf(rows[..i])
    {
      assert rows[..i + 1][..i] == rows[..i];
      IdsOfSnoc(rows[..i + 1]);
      if rows[i].transactionId !in seen {
        deduped := deduped + [rows[i]];
        seen := seen + {rows[i].transactionId};
      }
      i := i + 1;
    }
    assert rows[..|rows|] == rows;
  }

  /** `df.dropna()`, one row at a time. */
  method DropMissingLoop(rows: seq<RawRow>) returns (complete: seq<RawRow>)
    ensures complete == DropMissing(rows)
  {
    complete := [];
    var j := 0;
    while j < |rows|
      invariant 0 <= j <= |rows|
      invariant complete == DropMissing(rows[..j])
    {
      assert rows[..j + 1][..j] == rows[..j];
      if Complete(rows[j]) {
        complete := complete + [rows[j]];
      }
      j := j + 1;
    }
    assert rows[..|rows|] == rows;
  }

  /** `df['TransactionDate'] = pd.to_datetime(..., errors='coerce')`, one row at a time. */
  method CoerceDatesLoop(rows: seq<RawRow>, parse: string -> Option<int>) returns (cleaned: seq<Row>)
    requires forall i :: 0 <= i < |rows| ==> Complete(rows[i])
    ensures cleaned == CoerceDates(rows, parse)
  {
    cleaned := [];
    var k := 0;
    while k < |rows|
      invariant 0 <= k <= |rows|
      invariant |cleaned| == k
      invariant forall n :: 0 <= n < k ==> cleaned[n] == CoerceDate(rows[n], parse)
    {
      cleaned := cleaned + [CoerceDate(rows[k], parse)];
      k := k + 1;
    }
  }

  // ---------------------------------------------------------------------------
  // Properties of the stages

  /** No two rows share a transaction id. */
  predicate UniqueIds(rows: seq<RawRow>)
  {
    forall i, j :: 0 <= i < j < |rows| ==> rows[i].transactionId != rows[j].transactionId
  }

  /** `a` is `b` with some rows left out, the rest in their original order. */
  predicate IsSubsequence<T(==)>(a: seq<T>, b: seq<T>)
    decreases |b|
  {
    if a == [] then true
    else if b == [] then false
    else (a[|a| - 1] == b[|b| - 1] && IsSubsequence(a[..|a| - 1], b[..|b| - 1]))
         || IsSubsequence(a, b[..|b| - 1])
  }

  /** The first row of `rows`, in table order, whose transaction id is `id`. */
  function FirstWithId(rows: seq<RawRow>, id: Option<string>): RawRow
    requires id in IdsOf(rows)
    decreases |rows|
  {
    if rows[0].transactionId == id then rows[0]
    else
      assert id in IdsOf(rows[1..]) by {
        var r :| r in rows && r.transactionId == id;
        assert r != rows[0];
        assert r in rows[1..] by { assert rows == [rows[0]] + rows[1..]; }
      }
      FirstWithId(rows[1..], id)
  }

  lemma IdsOfSnoc(rows: seq<RawRow>)
    requires rows != []
    ensures IdsOf(rows) == IdsOf(rows[..|rows| - 1]) + {rows[|rows| - 1].transactionId}
  {
    assert rows == rows[..|rows| - 1] + [rows[|rows| - 1]];
  }

  lemma {:induction false} IsSubsequenceMembers<T>(a: seq<T>, b: seq<T>)
    requires IsSubsequence(a, b)
    ensures forall x :: x in a ==> x in b
    decreases |b|
  {
    if a != [] {
      var b' := b[..|b| - 1];
      assert b == b' + [b[|b| - 1]];
      if a[|a| - 1] == b[|b| - 1] && IsSubsequence(a[..|a| - 1], b') {
        IsSubsequenceMembers(a[..|a| - 1], b');
        assert a == a[..|a| - 1] + [a[|a| - 1]];
      } else {
        IsSubsequenceMembers(a, b');
      }
    }
  }

  lemma {:induction false} IsSubsequenceTransitive<T>(a: seq<T>, b: seq<T>, c: seq<T>)
    requires IsSubsequence(a, b) && IsSubsequence(b, c)
    ensures IsSubsequence(a, c)
    decreases |c|
  {
    if a != [] {
      var c' := c[..|c| - 1];
      if b[|b| - 1] == c[|c| - 1] && IsSubsequence(b[..|b| - 1], c') {
        var b' := b[..|b| - 1];
        if a[|a| - 1] == b[|b| - 1] && IsSubsequence(a[..|a| - 1], b') {
          IsSubsequenceTransitive(a[..|a| - 1], b', c');
        } else {
          IsSubsequenceTransitive(a, b', c');
        }
      } else {
        IsSubsequenceTransitive(a, b, c');
      }
    }
  }

  /** Leaving rows out of a table with unique ids leaves the ids unique. */
  lemma {:induction false} IsSubsequenceUnique(a: seq<RawRow>, b: seq<RawRow>)
    requires IsSubsequence(a, b) && UniqueIds(b)
    ensures UniqueIds(a)
    decreases |b|
  {
    if a != [] {
      var b' := b[..|b| - 1];
      assert UniqueIds(b');
      if a[|a| - 1] == b[|b| - 1] && IsSubsequence(a[..|a| - 1], b') {
        var a' := a[..|a| - 1];
        IsSubsequenceUnique(a', b');
        IsSubsequenceMembers(a', b');
        forall i, j | 0 <= i < j < |a|
          ensures a[i].transactionId != a[j].transactionId
        {
          if j == |a| - 1 {
            assert a[i] == a'[i] && a'[i] in b';
            var n :| 0 <= n < |b'| && b'[n] == a[i];
            assert b[n] == a[i] && b[|b| - 1] == a[j];
          } else {
            assert a[i] == a'[i] && a[j] == a'[j];
          }
        }
      } else {
        IsSubsequenceUnique(a, b');
      }
    }
  }

  /** If `id` already occurs in `rows`, appending rows does not move its first occurrence. */
  lemma {:induction false} FirstWithIdExtends(rows: seq<RawRow>, more: seq<RawRow>, id: Option<string>)
    requires id in IdsOf(rows)
    ensures id in IdsOf(rows + more) && FirstWithId(rows + more, id) == FirstWithId(rows, id)
    decreases |rows|
  {
    assert forall r :: r in rows ==> r in rows + more;
    if rows[0].transactionId != id {
      assert (rows + more)[1..] == rows[1..] + more;
      assert id in IdsOf(rows[1..]) by {
        var r :| r in rows && r.transactionId == id;
        assert rows == [rows[0]] + rows[1..];
      }
      FirstWithIdExtends(rows[1..], more, id);
    }
  }

  /** If `id` does not occur in `rows`, its first occurrence in `rows + [last]` is `last`. */
  lemma {:induction false} FirstWithIdFresh(rows: seq<RawRow>, last: RawRow)
    requires last.transactionId !in IdsOf(rows)
    ensures last.transactionId in IdsOf(rows + [last])
    ensures FirstWithId(rows + [last], last.transactionId) == last
    decreases |rows|
  {
    assert last in rows + [last];
    if rows != [] {
      assert rows[0] in rows;
      assert (rows + [last])[1..] == rows[1..] + [last];
      assert last.transactionId !in IdsOf(rows[1..]) by {
        assert forall r :: r in rows[1..] ==> r in rows;
      }
      FirstWithIdFresh(rows[1..], last);
    }
  }

  /** Stage 1 keeps the set of ids and leaves each of them once. */
  lemma {:induction false} DropDuplicateIdsUnique(rows: seq<RawRow>)
    ensures UniqueIds(DropDuplicateIds(rows))
    ensures IdsOf(DropDuplicateIds(rows)) == IdsOf(rows)
    decreases |rows|
  {
    if rows != [] {
      var prefix, last := rows[..|rows| - 1], rows[|rows| - 1];
      DropDuplicateIdsUnique(prefix);
      IdsOfSnoc(rows);
      var d := DropDuplicateIds(prefix);
      if last.transactionId !in IdsOf(prefix) {
        var out := d + [last];
        assert DropDuplicateIds(rows) == out;
        IdsOfSnoc(out);
        assert out[..|out| - 1] == d;
        forall i, j | 0 <= i < j < |out|
          ensures out[i].transactionId != out[j].transactionId
        {
          if j == |out| - 1 {
            assert out[i] in d;
          }
        }
      } else {
        assert DropDuplicateIds(rows) == d;
      }
    }
  }

  /** Stage 1 keeps input order. */
  lemma {:induction false} DropDuplicateIdsOrdered(rows: seq<RawRow>)
    ensures IsSubsequence(DropDuplicateIds(rows), rows)
    decreases |rows|
  {
    if rows != [] {
      var prefix, last := rows[..|rows| - 1], rows[|rows| - 1];
      DropDuplicateIdsOrdered(prefix);
      var d := DropDuplicateIds(prefix);
      if last.transactionId !in IdsOf(prefix) {
        var out := d + [last];
        assert DropDuplicateIds(rows) == out;
        assert out[..|out| - 1] == d && out[|out| - 1] == last;
      } else {
        assert DropDuplicateIds(rows) == d;
      }
    }
  }

  /** Each row stage 1 keeps is the first input row carrying its id. */
  lemma {:induction false} DropDuplicateIdsKeepsFirst(rows: seq<RawRow>)
    ensures forall r :: r in DropDuplicateIds(rows) ==>
              r.transactionId in IdsOf(rows) && r == FirstWithId(rows, r.transactionId)
    decreases |rows|
  {
    if rows != [] {
      var prefix, last := rows[..|rows| - 1], rows[|rows| - 1];
      DropDuplicateIdsKeepsFirst(prefix);
      var d := DropDuplicateIds(prefix);
      assert rows == prefix + [last];
      forall r | r in d
        ensures r.transactionId in IdsOf(rows) && r == FirstWithId(rows, r.transactionId)
      {
        FirstWithIdExtends(prefix, [last], r.transactionId);
      }
      if last.transactionId !in IdsOf(prefix) {
        FirstWithIdFresh(prefix, last);
        assert DropDuplicateIds(rows) == d + [last];
      } else {
        assert DropDuplicateIds(rows) == d;
      }
    }
  }

  /** The rows stage 2 keeps are complete (so stage 3 may read every cell). */
  lemma {:induction false} DropMissingComplete(rows: seq<RawRow>)
    ensures forall i :: 0 <= i < |DropMissing(rows)| ==> Complete(DropMissing(rows)[i])
    decreases |rows|
  {
    if rows != [] {
      var prefix, last := rows[..|rows| - 1], rows[|rows| - 1];
      DropMissingComplete(prefix);
      var d := DropMissing(prefix);
      if Complete(last) {
        var out := d + [last];
        assert DropMissing(rows) == out;
        forall i | 0 <= i < |out|
          ensures Complete(out[i])
        {
          if i < |d| {
            assert out[i] == d[i];
          }
        }
      } else {
        assert DropMissing(rows) == d;
      }
    }
  }

  /** Stage 2 keeps every complete row. */
  lemma {:induction false} DropMissingKeepsComplete(rows: seq<RawRow>)
    ensures forall r :: r in rows && Complete(r) ==> r in DropMissing(rows)
    decreases |rows|
  {
    if rows != [] {
      var prefix, last := rows[..|rows| - 1], rows[|rows| - 1];
      DropMissingKeepsComplete(prefix);
      assert rows == prefix + [last];
      assert forall r :: r in DropMissing(prefix) ==> r in DropMissing(rows);
    }
  }

  /** Stage 2 keeps input order. */
  lemma {:induction false} DropMissingOrdered(rows: seq<RawRow>)
    ensures IsSubsequence(DropMissing(rows), rows)
    decreases |rows|
  {
    if rows != [] {
      var prefix, last := rows[..|rows| - 1], rows[|rows| - 1];
      DropMissingOrdered(prefix);
      var d := DropMissing(prefix);
      if Complete(last) {
        var out := d + [last];
        assert DropMissing(rows) == out;
        assert out[..|out| - 1] == d && out[|out| - 1] == last;
      } else {
        assert DropMissing(rows) == d;
      }
    }
  }

  /** Stage 1 does nothing to a table whose ids are already unique. */
  lemma {:induction false} DropDuplicateIdsOnUnique(rows: seq<RawRow>)
    requires UniqueIds(rows)
    ensures DropDuplicateIds(rows) == rows
    decreases |rows|
  {
    if rows != [] {
      var prefix, last := rows[..|rows| - 1], rows[|rows| - 1];
      assert UniqueIds(prefix) by {
        forall i, j | 0 <= i < j < |prefix|
          ensures prefix[i].transactionId != prefix[j].transactionId
        {
          assert prefix[i] == rows[i] && prefix[j] == rows[j];
        }
      }
      DropDuplicateIdsOnUnique(prefix);
      assert last.transactionId !in IdsOf(prefix) by {
        forall r | r in prefix
          ensures r.transactionId != last.transactionId
        {
          var n :| 0 <= n < |prefix| && prefix[n] == r;
          assert rows[n] == r && n < |rows| - 1;
        }
      }
      assert DropDuplicateIds(rows) == prefix + [last];
      assert rows == prefix + [last];
    }
  }

  /** Stage 2 does nothing to a table without missing cells. */
  lemma {:induction false} DropMissingOnComplete(rows: seq<RawRow>)
    requires forall i :: 0 <= i < |rows| ==> Complete(rows[i])
    ensures DropMissing(rows) == rows
    decreases |rows|
  {
    if rows != [] {
      DropMissingOnComplete(rows[..|rows| - 1]);
      assert rows == rows[..|rows| - 1] + [rows[|rows| - 1]];
    }
  }

  /** Running either filtering stage twice gives what running it once gives. */
  lemma FilteringIdempotent(rows: seq<RawRow>)
    ensures DropDuplicateIds(DropDuplicateIds(rows)) == DropDuplicateIds(rows)
    ensures DropMissing(DropMissing(rows)) == DropMissing(rows)
  {
    DropDuplicateIdsUnique(rows);
    DropDuplicateIdsOnUnique(DropDuplicateIds(rows));
    DropMissingComplete(rows);
    DropMissingOnComplete(DropMissing(rows));
  }

  /** The rows that survive both filtering stages: an order-preserving
      subsequence of the input, complete, with unique ids, each the first input
      row carrying its id; and every first occurrence that is complete survives. */
  lemma FilteredRowsSpec(rows: seq<RawRow>)
    ensures var kept := DropMissing(DropDuplicateIds(rows));
      IsSubsequence(kept, rows) &&
      UniqueIds(kept) &&
      (forall k :: 0 <= k < |kept| ==> Complete(kept[k])) &&
      (forall r :: r in kept ==> r.transactionId in IdsOf(rows) && r == FirstWithId(rows, r.transactionId)) &&
      (forall id :: id in IdsOf(rows) && Complete(FirstWithId(rows, id)) ==> FirstWithId(rows, id) in kept)
  {
    var d := DropDuplicateIds(rows);
    var kept := DropMissing(d);
    DropDuplicateIdsUnique(rows);
    DropDuplicateIdsOrdered(rows);
    DropDuplicateIdsKeepsFirst(rows);
    DropMissingComplete(d);
    DropMissingKeepsComplete(d);
    DropMissingOrdered(d);
    IsSubsequenceTransitive(kept, d, rows);
    IsSubsequenceMembers(kept, d);
    IsSubsequenceUnique(kept, d);
    forall id | id in IdsOf(rows) && Complete(FirstWithId(rows, id))
      ensures FirstWithId(rows, id) in kept
    {
      assert id in IdsOf(d);
      var r :| r in d && r.transactionId == id;
    }
  }

  /** The whole cleaner: absent input gives absent output; otherwise each output
      row is the filtered row at the same position with its cells unwrapped, and
      its date is the parse of the date text, so a date that does not parse is
      missing in a row that is kept. */
  lemma PreprocessSpec(data: Option<seq<RawRow>>, parse: string -> Option<int>)
    ensures Preprocess(data, parse).None? <==> data.None?
    ensures data.Some? ==>
      var out, kept := Preprocess(data, parse).value, DropMissing(DropDuplicateIds(data.value));
      |out| == |kept| &&
      forall k :: 0 <= k < |kept| ==>
        Complete(kept[k]) &&
        Some(out[k].transactionId) == kept[k].transactionId &&
        Some(out[k].customerId) == kept[k].customerId &&
        Some(out[k].customerDob) == kept[k].customerDob &&
        Some(out[k].custGender) == kept[k].custGender &&
        Some(out[k].custLocation) == kept[k].custLocation &&
        Some(out[k].custAccountBalance) == kept[k].custAccountBalance &&
        Some(out[k].transactionAmount) == kept[k].transactionAmount &&
        |out[k].otherColumns| == |kept[k].otherColumns| &&
        (forall n :: 0 <= n < |kept[k].otherColumns| ==> Some(out[k].otherColumns[n]) == kept[k].otherColumns[n]) &&
        out[k].transactionDate == parse(kept[k].transactionDate.value)
  {
    if data.Some? {
      DropMissingComplete(DropDuplicateIds(data.value));
    }
  }
}
