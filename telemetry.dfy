/** The telemetry table of the FastAPI service (`signals.csv`): every upload
    appends one row parsed from its name, and the table keeps only the last
    row of each `date`. The file holds the table itself; CSV text and pandas
    type inference are not modelled. */
module Telemetry {
  import opened Text
  import opened Filenames

  /** One row of the table, in the column order of `parse_file_data`. */
  datatype Row = Row(date: Field, humidity: Field, temperature: Field, signal: Field,
                     voltageSim: Field, voltageAkb: Field)

  /** `parse_file_data`: the parsed tuple laid out as table columns. */
  function RowOf(info: Info): Row
  {
    Row(info.datetime, info.humidity, info.temperature, info.signal, info.voltageSim, info.voltageAkb)
  }

  predicate HasDate(s: seq<Row>, d: Field)
  {
    exists k :: 0 <= k < |s| && s[k].date == d
  }

  predicate UniqueDates(s: seq<Row>)
  {
    forall i, j :: 0 <= i < j < |s| ==> s[i].date != s[j].date
  }

  /** The row at i is the last one of its date. */
  predicate IsLastOf(s: seq<Row>, i: int)
    requires 0 <= i < |s|
  {
    forall j :: i < j < |s| ==> s[j].date != s[i].date
  }

  /** `drop_duplicates(subset='date', keep='last')`: the rows that are the
      last of their date, in their original order. */
  function KeepLast(rows: seq<Row>): (r: seq<Row>)
    ensures |r| <= |rows|
    decreases |rows|
  {
    if rows == [] then []
    else if HasDate(rows[1..], rows[0].date) then KeepLast(rows[1..])
    else [rows[0]] + KeepLast(rows[1..])
  }

  /** The rows whose date is not d. */
  function Without(s: seq<Row>, d: Field): (r: seq<Row>)
    ensures |r| <= |s| && !HasDate(r, d)
    decreases |s|
  {
    if s == [] then []
    else if s[0].date == d then Without(s[1..], d)
    else [s[0]] + Without(s[1..], d)
  }

  /** `pd.concat([existing_df, new_df]).drop_duplicates(subset='date',
      keep='last')` for a one-row new frame. */
  function Merge(existing: seq<Row>, row: Row): (r: seq<Row>)
    ensures UniqueDates(r) && r != [] && r[|r| - 1] == row
    ensures |r| <= |existing| + 1
  {
    KeepLastAppend(existing, row);
    KeepLastUnique(existing + [row]);
    KeepLast(existing + [row])
  }

  // ------------------------------------------------------------ lemmas

  lemma HasDateTail(s: seq<Row>, d: Field)
    requires s != []
    ensures HasDate(s, d) <==> s[0].date == d || HasDate(s[1..], d)
  {
    if HasDate(s, d) && s[0].date != d {
      var k :| 0 <= k < |s| && s[k].date == d;
      assert s[1..][k - 1].date == d;
    }
    if HasDate(s[1..], d) {
      var k :| 0 <= k < |s[1..]| && s[1..][k].date == d;
      assert s[k + 1].date == d;
    }
  }

  /** Deduplication loses no date and invents none. */
  lemma {:induction false} KeepLastDates(s: seq<Row>, d: Field)
    ensures HasDate(KeepLast(s), d) <==> HasDate(s, d)
    decreases |s|
  {
    if s != [] {
      HasDateTail(s, d);
      KeepLastDates(s[1..], d);
      if !HasDate(s[1..], s[0].date) {
        HasDateTail([s[0]] + KeepLast(s[1..]), d);
        assert ([s[0]] + KeepLast(s[1..]))[1..] == KeepLast(s[1..]);
      }
    }
  }

  /** No two rows of the result share a date. */
  lemma {:induction false} KeepLastUnique(s: seq<Row>)
    ensures UniqueDates(KeepLast(s))
    decreases |s|
  {
    if s != [] {
      KeepLastUnique(s[1..]);
      if !HasDate(s[1..], s[0].date) {
        var t := KeepLast(s[1..]);
        KeepLastDates(s[1..], s[0].date);
        var r := [s[0]] + t;
        forall i, j | 0 <= i < j < |r|
          ensures r[i].date != r[j].date
        {
          if i == 0 {
            assert r[j] == t[j - 1];
          } else {
            assert r[i] == t[i - 1] && r[j] == t[j - 1];
          }
        }
      }
    }
  }

  /** A table whose dates are already distinct is left as it is. */
  lemma {:induction false} KeepLastOfUnique(s: seq<Row>)
    requires UniqueDates(s)
    ensures KeepLast(s) == s
    decreases |s|
  {
    if s != [] {
      assert UniqueDates(s[1..]) by {
        forall i, j | 0 <= i < j < |s[1..]|
          ensures s[1..][i].date != s[1..][j].date
        {
          assert s[1..][i] == s[i + 1] && s[1..][j] == s[j + 1];
        }
      }
      KeepLastOfUnique(s[1..]);
      assert !HasDate(s[1..], s[0].date) by {
        forall k | 0 <= k < |s[1..]|
          ensures s[1..][k].date != s[0].date
        {
          assert s[1..][k] == s[k + 1];
        }
      }
      assert s == [s[0]] + s[1..];
    }
  }

  /** Every surviving row is the last row of its date in the input. */
  lemma {:induction false} SurvivorsAreLast(s: seq<Row>, k: int)
    requires 0 <= k < |KeepLast(s)|
    ensures exists i :: 0 <= i < |s| && s[i] == KeepLast(s)[k] && IsLastOf(s, i)
    decreases |s|
  {
    var t := s[1..];
    if HasDate(t, s[0].date) {
      SurvivorsAreLast(t, k);
      var i :| 0 <= i < |t| && t[i] == KeepLast(t)[k] && IsLastOf(t, i);
      assert s[i + 1] == t[i];
      assert IsLastOf(s, i + 1) by {
        forall j | i + 1 < j < |s|
          ensures s[j].date != s[i + 1].date
        {
          assert s[j] == t[j - 1];
        }
      }
    } else if k == 0 {
      assert KeepLast(s)[0] == s[0];
      assert IsLastOf(s, 0) by {
        forall j | 0 < j < |s|
          ensures s[j].date != s[0].date
        {
          assert t[j - 1] == s[j];
        }
      }
    } else {
      assert KeepLast(s)[k] == KeepLast(t)[k - 1];
      SurvivorsAreLast(t, k - 1);
      var i :| 0 <= i < |t| && t[i] == KeepLast(t)[k - 1] && IsLastOf(t, i);
      assert s[i + 1] == t[i];
      assert IsLastOf(s, i + 1) by {
        forall j | i + 1 < j < |s|
          ensures s[j].date != s[i + 1].date
        {
          assert s[j] == t[j - 1];
        }
      }
    }
  }

  lemma HasDateWithout(s: seq<Row>, d: Field, e: Field)
    requires e != d
    ensures HasDate(Without(s, d), e) <==> HasDate(s, e)
    decreases |s|
  {
    if s != [] {
      HasDateTail(s, e);
      HasDateWithout(s[1..], d, e);
      if s[0].date != d {
        HasDateTail([s[0]] + Without(s[1..], d), e);
        assert ([s[0]] + Without(s[1..], d))[1..] == Without(s[1..], d);
      }
    }
  }

  lemma HasDateAppend(s: seq<Row>, r: Row, d: Field)
    ensures HasDate(s + [r], d) <==> HasDate(s, d) || r.date == d
  {
    if HasDate(s + [r], d) && r.date != d {
      var k :| 0 <= k < |s + [r]| && (s + [r])[k].date == d;
      assert s[k].date == d;
    }
    if HasDate(s, d) {
      var k :| 0 <= k < |s| && s[k].date == d;
      assert (s + [r])[k] == s[k];
    }
    assert (s + [r])[|s|] == r;
  }

  /** Removing a date commutes with deduplication. */
  lemma {:induction false} KeepLastWithout(s: seq<Row>, d: Field)
    ensures KeepLast(Without(s, d)) == Without(KeepLast(s), d)
    decreases |s|
  {
    if s != [] {
      var t := s[1..];
      KeepLastWithout(t, d);
      if s[0].date == d {
        if !HasDate(t, s[0].date) {
          assert Without([s[0]] + KeepLast(t), d) == Without(KeepLast(t), d) by {
            assert ([s[0]] + KeepLast(t))[1..] == KeepLast(t);
          }
        }
      } else {
        HasDateWithout(t, d, s[0].date);
        assert Without(s, d) == [s[0]] + Without(t, d);
        assert Without(s, d)[1..] == Without(t, d);
        if !HasDate(t, s[0].date) {
          assert ([s[0]] + KeepLast(t))[1..] == KeepLast(t);
        }
      }
    }
  }

  /** Appending a row: it comes last, and every earlier row of its date is
      gone. */
  lemma {:induction false} KeepLastAppend(s: seq<Row>, r: Row)
    ensures KeepLast(s + [r]) == KeepLast(Without(s, r.date)) + [r]
    decreases |s|
  {
    if s == [] {
      assert !HasDate([], r.date);
      assert [r][1..] == [];
    } else {
      var t := s[1..];
      assert (s + [r])[1..] == t + [r];
      assert (s + [r])[0] == s[0];
      KeepLastAppend(t, r);
      HasDateAppend(t, r, s[0].date);
      if s[0].date != r.date {
        HasDateWithout(t, r.date, s[0].date);
        assert Without(s, r.date)[1..] == Without(t, r.date);
      }
    }
  }

  lemma {:induction false} WithoutOfUnique(s: seq<Row>, d: Field)
    requires UniqueDates(s)
    ensures UniqueDates(Without(s, d))
    decreases |s|
  {
    if s != [] {
      assert UniqueDates(s[1..]) by {
        forall i, j | 0 <= i < j < |s[1..]|
          ensures s[1..][i].date != s[1..][j].date
        {
          assert s[1..][i] == s[i + 1] && s[1..][j] == s[j + 1];
        }
      }
      WithoutOfUnique(s[1..], d);
      if s[0].date != d {
        var w := Without(s[1..], d);
        assert !HasDate(s[1..], s[0].date) by {
          forall k | 0 <= k < |s[1..]|
            ensures s[1..][k].date != s[0].date
          {
            assert s[1..][k] == s[k + 1];
          }
        }
        HasDateWithout(s[1..], d, s[0].date);
        var r := [s[0]] + w;
        forall i, j | 0 <= i < j < |r|
          ensures r[i].date != r[j].date
        {
          if i == 0 {
            assert r[j] == w[j - 1];
          } else {
            assert r[i] == w[i - 1] && r[j] == w[j - 1];
          }
        }
      }
    }
  }

  lemma {:induction false} WithoutAbsent(s: seq<Row>, d: Field)
    requires !HasDate(s, d)
    ensures Without(s, d) == s
    decreases |s|
  {
    if s != [] {
      HasDateTail(s, d);
      WithoutAbsent(s[1..], d);
      assert s == [s[0]] + s[1..];
    }
  }

  // ----------------------------------------------- properties of a merge

  /** The merged table: the older rows of other dates, deduplicated and in
      order, then the new row. */
  lemma MergeShape(existing: seq<Row>, row: Row)
    ensures Merge(existing, row) == KeepLast(Without(existing, row.date)) + [row]
    ensures UniqueDates(Merge(existing, row))
    ensures Merge(existing, row)[|Merge(existing, row)| - 1] == row
  {
    KeepLastAppend(existing, row);
    KeepLastUnique(existing + [row]);
  }

  /** A table that came out of a merge keeps every row of another date
      untouched and in order. */
  lemma MergeKeepsOthers(existing: seq<Row>, row: Row)
    requires UniqueDates(existing)
    ensures Merge(existing, row) == Without(existing, row.date) + [row]
  {
    KeepLastAppend(existing, row);
    WithoutOfUnique(existing, row.date);
    KeepLastOfUnique(Without(existing, row.date));
  }

  /** Every date of the older table is still there. */
  lemma MergeKeepsDates(existing: seq<Row>, row: Row, d: Field)
    requires HasDate(existing, d)
    ensures HasDate(Merge(existing, row), d)
  {
    HasDateAppend(existing, row, d);
    KeepLastDates(existing + [row], d);
  }

  /** A second row of the same date replaces the first: merging the same
      row twice gives the table of merging it once. */
  lemma MergeTwice(existing: seq<Row>, row: Row, again: Row)
    requires again.date == row.date
    ensures Merge(Merge(existing, row), again) == Merge(existing, again)
  {
    var d := row.date;
    var k := KeepLast(Without(existing, d));
    KeepLastAppend(existing, row);
    KeepLastAppend(existing, again);
    KeepLastAppend(k + [row], again);
    WithoutAppendDrop(k, row);
    KeepLastWithout(Without(existing, d), d);
    WithoutAbsent(Without(existing, d), d);
    KeepLastUnique(Without(existing, d));
    KeepLastOfUnique(k);
  }

  lemma WithoutAppendDrop(s: seq<Row>, r: Row)
    ensures Without(s + [r], r.date) == Without(s, r.date)
    decreases |s|
  {
    if s == [] {
      assert [r][1..] == [];
    } else {
      assert (s + [r])[1..] == s[1..] + [r];
      WithoutAppendDrop(s[1..], r);
    }
  }

  lemma MergeIdempotent(existing: seq<Row>, row: Row)
    ensures Merge(Merge(existing, row), row) == Merge(existing, row)
  {
    MergeTwice(existing, row, row);
  }

  /** With no readable table the file becomes exactly the new row. */
  lemma MergeIntoNothing(row: Row)
    ensures Merge([], row) == [row]
  {
    assert [] + [row] == [row];
    assert !HasDate([row][1..], row.date);
  }

  // ------------------------------------------------------- the CSV file

  /** The CSV file: None when it is missing, or when reading it fails (an
      empty frame, as `read_existing_csv` returns one). */
  class SignalsCsv {
    var table: Option<seq<Row>>

    constructor(contents: Option<seq<Row>>)
      ensures table == contents
    {
      table := contents;
    }

    function Existing(): (r: seq<Row>)
      reads this
      ensures table.None? ==> r == []
      ensures table.Some? ==> r == table.value
    {
      if table.Some? then table.value else []
    }

    /** `write_to_csv` for one new row: read, merge, rewrite. */
    method WriteToCsv(row: Row)
      modifies this
      ensures table == Some(Merge(old(Existing()), row))
    {
      var existing := if table.Some? then table.value else [];
      var combined := KeepLast(existing + [row]);
      table := Some(combined);
    }

    /** `update_stats`: the row parsed from the stored name, merged in. */
    method UpdateStats(filename: string, reasons: map<string, string>)
      modifies this
      ensures table == Some(Merge(old(Existing()), RowOf(StemInfo(filename, reasons))))
    {
      var row := RowOf(StemInfo(filename, reasons));
      WriteToCsv(row);
    }
  }
}
