/** The SMS log of the FastAPI service (`sms.csv`, with endpoints
    `/sms-receive` and `/sms-last`). The file is held as its CSV rows, each row
    a list of fields; the CSV text encoding is not modelled. Timestamps are
    read by an injected parser standing for `datetime.strptime(ts,
    "%Y-%m-%dT%H:%M:%S%z")`: Some(instant) for an aware datetime, None when
    strptime raises. */
module SmsStore {
  import opened Text

  datatype SmsItem = SmsItem(phone: string, message: string, timestamp: string)

  /** One entry of `all_records`: the three fields and the row to write back. */
  datatype Record = Record(timestamp: string, phone: string, message: string, original: seq<string>)

  /** The dict of one SMS in the `/sms-last` answer. */
  datatype SmsView = SmsView(timestamp: string, phone: string, message: string)

  datatype Response = Stored(received: nat, total: nat) | Failed

  datatype Listing = Listed(sms: seq<SmsView>) | ListFailed

  type Rows = seq<seq<string>>
  type Parser = string -> Option<int>

  /** The header written when the file is first created. */
  const Header: seq<string> := ["timestamp", "phone", "message"]

  function KeyOf(r: Record): (string, string, string)
  {
    (r.timestamp, r.phone, r.message)
  }

  /** A record whose fields are the first three of its row. */
  predicate WellFormed(r: Record)
  {
    |r.original| >= 3 && r.original[0] == r.timestamp && r.original[1] == r.phone
    && r.original[2] == r.message
  }

  predicate AllWellFormed(s: seq<Record>)
  {
    forall k :: 0 <= k < |s| ==> WellFormed(s[k])
  }

  function RecordOfRow(row: seq<string>): (r: Record)
    requires |row| >= 3
    ensures WellFormed(r) && r.original == row
  {
    Record(row[0], row[1], row[2], row)
  }

  /** The rows read back: every row with at least three fields, in file
      order (the header row included). */
  function Loaded(rows: Rows): (r: seq<Record>)
    ensures |r| <= |rows| && AllWellFormed(r)
  {
    if rows == [] then []
    else Loaded(rows[..|rows| - 1])
         + (if |rows[|rows| - 1]| >= 3 then [RecordOfRow(rows[|rows| - 1])] else [])
  }

  function ItemRecords(items: seq<SmsItem>): (r: seq<Record>)
    ensures |r| == |items| && AllWellFormed(r)
    ensures forall k :: 0 <= k < |items| ==> KeyOf(r[k]) == (items[k].timestamp, items[k].phone, items[k].message)
  {
    if items == [] then []
    else
      var it := items[|items| - 1];
      ItemRecords(items[..|items| - 1]) + [Record(it.timestamp, it.phone, it.message, [it.timestamp, it.phone, it.message])]
  }

  function KeySet(s: seq<Record>): set<(string, string, string)>
  {
    set r | r in s :: KeyOf(r)
  }

  /** No two records share a key. */
  predicate DistinctKeys(s: seq<Record>)
  {
    |KeySet(s)| == |s|
  }

  /** The `seen`/`unique_records` loop: the first record of every key, in
      order. */
  function Dedup(s: seq<Record>): (r: seq<Record>)
    ensures |r| <= |s|
    ensures forall k :: 0 <= k < |r| ==> r[k] in s
  {
    if s == [] then []
    else
      var d := Dedup(s[..|s| - 1]);
      if KeyOf(s[|s| - 1]) in KeySet(d) then d else d + [s[|s| - 1]]
  }

  // --------------------------------------------------- ordering by time

  /** The intended order of sort keys: unparseable first, then by instant. */
  predicate StampLe(a: Option<int>, b: Option<int>)
  {
    a.None? || (b.Some? && a.value <= b.value)
  }

  predicate SortedByStamp(parse: Parser, s: seq<Record>)
  {
    forall i, j :: 0 <= i < j < |s| ==> StampLe(parse(s[i].timestamp), parse(s[j].timestamp))
  }

  /** Insertion behind every record whose key is not greater. */
  function Insert(parse: Parser, s: seq<Record>, x: Record): (r: seq<Record>)
    ensures |r| == |s| + 1
  {
    if s == [] then [x]
    else if StampLe(parse(s[|s| - 1].timestamp), parse(x.timestamp)) then s + [x]
    else Insert(parse, s[..|s| - 1], x) + [s[|s| - 1]]
  }

  /** A stable sort by timestamp key (the intended `sorted(...,
      key=parse_timestamp)`). */
  function SortByStamp(parse: Parser, s: seq<Record>): (r: seq<Record>)
    ensures |r| == |s|
  {
    if s == [] then [] else Insert(parse, SortByStamp(parse, s[..|s| - 1]), s[|s| - 1])
  }

  /** The records whose timestamp parses to the sort key `v`, in order;
      with `v` None, the records whose timestamp does not parse. */
  function WithStamp(parse: Parser, s: seq<Record>, v: Option<int>): seq<Record>
  {
    if s == [] then []
    else WithStamp(parse, s[..|s| - 1], v)
         + (if parse(s[|s| - 1].timestamp) == v then [s[|s| - 1]] else [])
  }

  function RowsOf(s: seq<Record>): (r: Rows)
    ensures |r| == |s| && forall k :: 0 <= k < |s| ==> r[k] == s[k].original
  {
    seq(|s|, k requires 0 <= k < |s| => s[k].original)
  }

  // ------------------------------------------------------- receive_sms

  function AllRecords(file: Option<Rows>, items: seq<SmsItem>): seq<Record>
  {
    (if file.Some? then Loaded(file.value) else []) + ItemRecords(items)
  }

  /** `receive_sms` with the intended order: the file becomes the sorted
      unique records; `received` counts the batch and `total_records` the
      rows written, header included. */
  function Receive(file: Option<Rows>, items: seq<SmsItem>, parse: Parser): (r: (Option<Rows>, Response))
    ensures r.0.Some? && r.1 == Stored(|items|, |r.0.value|)
  {
    var sorted := SortByStamp(parse, Dedup(AllRecords(file, items)));
    (Some(RowsOf(sorted)), Stored(|items|, |sorted|))
  }

  /** Some record parses and another does not: the real keys are then an
      aware datetime and the naive `datetime.min`, which do not compare. */
  predicate Mixed(parse: Parser, s: seq<Record>)
  {
    (exists i :: 0 <= i < |s| && parse(s[i].timestamp).Some?)
    && (exists j :: 0 <= j < |s| && parse(s[j].timestamp).None?)
  }

  /** `receive_sms` as written: `sorted` raises TypeError on mixed keys (any
      comparison sort has to compare the two kinds), the handler returns
      (does not raise) its `HTTPException`, which goes out as a JSON object
      with HTTP status 200, and the file is not rewritten. */
  function ReceiveAsWritten(file: Option<Rows>, items: seq<SmsItem>, parse: Parser): (r: (Option<Rows>, Response))
    ensures Mixed(parse, Dedup(AllRecords(file, items))) ==> r == (file, Failed)
    ensures !Mixed(parse, Dedup(AllRecords(file, items))) ==> r == Receive(file, items, parse)
  {
    var unique := Dedup(AllRecords(file, items));
    if Mixed(parse, unique) then (file, Failed) else Receive(file, items, parse)
  }

  // ------------------------------------------------------- get_last_sms

  /** `sms_list[-limit:] if len(sms_list) > limit else sms_list` */
  function LastRows(rows: Rows, limit: int): (r: Rows)
    ensures limit > 0 && |rows| > limit ==> |r| == limit && r == rows[|rows| - limit..]
    ensures limit >= 0 && |rows| <= limit ==> r == rows
    ensures limit == 0 ==> r == rows
    ensures limit < 0 ==> r == rows[SliceBound(|rows|, -limit)..]
  {
    if |rows| > limit then PyFrom(rows, -limit) else rows
  }

  /** `get_last_sms`: skip the header, keep the last `limit` rows; an empty
      file (StopIteration at the header) or a row with fewer than three
      fields (IndexError) gives the returned error object, sent with HTTP status 200. */
  function LastSms(file: Option<Rows>, limit: int): (r: Listing)
    ensures file.None? ==> r == Listed([])
    ensures file == Some([]) ==> r == ListFailed
    ensures r.Listed? && file.Some? ==> |r.sms| == |LastRows(file.value[1..], limit)|
    ensures r.Listed? && file.Some? ==> forall k :: 0 <= k < |r.sms| ==>
              |LastRows(file.value[1..], limit)[k]| >= 3
              && r.sms[k] == SmsView(LastRows(file.value[1..], limit)[k][0], LastRows(file.value[1..], limit)[k][1],
                                     LastRows(file.value[1..], limit)[k][2])
    ensures file.Some? && file.value != [] ==>
              (r == ListFailed <==> exists k :: 0 <= k < |LastRows(file.value[1..], limit)| && |LastRows(file.value[1..], limit)[k]| < 3)
  {
    if file.None? then Listed([])
    else if file.value == [] then ListFailed
    else
      var kept := LastRows(file.value[1..], limit);
      if exists k :: 0 <= k < |kept| && |kept[k]| < 3 then ListFailed
      else Listed(seq(|kept|, k requires 0 <= k < |kept| && |kept[k]| >= 3 => SmsView(kept[k][0], kept[k][1], kept[k][2])))
  }

  // ------------------------------------------------------------ lemmas

  lemma KeySetSnoc(s: seq<Record>, x: Record)
    ensures KeySet(s + [x]) == KeySet(s) + {KeyOf(x)}
  {
    assert forall r :: r in s + [x] <==> r in s || r == x;
  }

  lemma KeySetConcat(a: seq<Record>, b: seq<Record>)
    ensures KeySet(a + b) == KeySet(a) + KeySet(b)
  {
    assert forall r :: r in a + b <==> r in a || r in b;
  }

  lemma KeySetSize(s: seq<Record>)
    ensures |KeySet(s)| <= |s|
    decreases |s|
  {
    if s != [] {
      var p := s[..|s| - 1];
      assert s == p + [s[|s| - 1]];
      KeySetSnoc(p, s[|s| - 1]);
      KeySetSize(p);
    }
  }

  /** A record whose key is new adds one key; the prefix of a sequence of
      distinct keys has distinct keys and lacks the last key. */
  lemma DistinctSnoc(p: seq<Record>, x: Record)
    ensures DistinctKeys(p + [x]) <==> DistinctKeys(p) && KeyOf(x) !in KeySet(p)
  {
    KeySetSnoc(p, x);
    KeySetSize(p);
  }

  /** Distinct keys, pairwise. */
  lemma {:induction false} DistinctKeysPairwise(s: seq<Record>, i: int, j: int)
    requires DistinctKeys(s) && 0 <= i < j < |s|
    ensures KeyOf(s[i]) != KeyOf(s[j])
    decreases |s|
  {
    var p := s[..|s| - 1];
    assert s == p + [s[|s| - 1]];
    DistinctSnoc(p, s[|s| - 1]);
    if j < |s| - 1 {
      assert s[i] == p[i] && s[j] == p[j];
      DistinctKeysPairwise(p, i, j);
    } else {
      assert s[i] in p;
    }
  }

  /** Deduplication keeps every key once. */
  lemma {:induction false} DedupKeys(s: seq<Record>)
    ensures KeySet(Dedup(s)) == KeySet(s) && DistinctKeys(Dedup(s))
    decreases |s|
  {
    if s != [] {
      var p := s[..|s| - 1];
      var x := s[|s| - 1];
      assert s == p + [x];
      DedupKeys(p);
      KeySetSnoc(p, x);
      KeySetSnoc(Dedup(p), x);
      DistinctSnoc(Dedup(p), x);
    }
  }

  /** A sequence with distinct keys is its own deduplication. */
  lemma {:induction false} DedupOfDistinct(s: seq<Record>)
    requires DistinctKeys(s)
    ensures Dedup(s) == s
    decreases |s|
  {
    if s != [] {
      var p := s[..|s| - 1];
      assert s == p + [s[|s| - 1]];
      DistinctSnoc(p, s[|s| - 1]);
      DedupOfDistinct(p);
    }
  }

  /** Records whose keys are already present are all dropped. */
  lemma {:induction false} DedupCovered(s: seq<Record>, t: seq<Record>)
    requires DistinctKeys(s) && KeySet(t) <= KeySet(s)
    ensures Dedup(s + t) == s
    decreases |t|
  {
    if t == [] {
      assert s + t == s;
      DedupOfDistinct(s);
    } else {
      var q := t[..|t| - 1];
      var y := t[|t| - 1];
      assert t == q + [y];
      KeySetSnoc(q, y);
      DedupCovered(s, q);
      assert (s + t)[..|s + t| - 1] == s + q;
      assert (s + t)[|s + t| - 1] == y;
    }
  }

  /** Reading back rows written from well-formed records gives the records. */
  lemma {:induction false} LoadedRowsOf(s: seq<Record>)
    requires AllWellFormed(s)
    ensures Loaded(RowsOf(s)) == s
    decreases |s|
  {
    if s != [] {
      var p := s[..|s| - 1];
      assert RowsOf(s)[..|s| - 1] == RowsOf(p);
      LoadedRowsOf(p);
      assert s == p + [s[|s| - 1]];
    }
  }

  lemma StampLeTotal(a: Option<int>, b: Option<int>)
    ensures StampLe(a, b) || StampLe(b, a)
  {
  }

  /** A record no earlier than every record of a sorted list may follow it. */
  lemma AppendSorted(parse: Parser, q: seq<Record>, y: Record)
    requires SortedByStamp(parse, q)
    requires forall k :: 0 <= k < |q| ==> StampLe(parse(q[k].timestamp), parse(y.timestamp))
    ensures SortedByStamp(parse, q + [y])
  {
    var r := q + [y];
    forall i, j | 0 <= i < j < |r|
      ensures StampLe(parse(r[i].timestamp), parse(r[j].timestamp))
    {
      assert r[i] == q[i];
      if j < |q| {
        assert r[j] == q[j];
      }
    }
  }

  /** Insertion keeps the order and adds exactly the new record. */
  lemma {:induction false} InsertSorted(parse: Parser, s: seq<Record>, x: Record)
    requires SortedByStamp(parse, s)
    ensures SortedByStamp(parse, Insert(parse, s, x))
    ensures multiset(Insert(parse, s, x)) == multiset(s) + multiset{x}
    decreases |s|
  {
    if s != [] {
      var p := s[..|s| - 1];
      var last := s[|s| - 1];
      assert s == p + [last];
      assert forall k :: 0 <= k < |p| ==> p[k] == s[k];
      if !StampLe(parse(last.timestamp), parse(x.timestamp)) {
        assert SortedByStamp(parse, p);
        InsertSorted(parse, p, x);
        var q := Insert(parse, p, x);
        forall k | 0 <= k < |q|
          ensures StampLe(parse(q[k].timestamp), parse(last.timestamp))
        {
          assert q[k] in multiset(p) + multiset{x};
          if q[k] != x {
            assert q[k] in p;
          } else {
            StampLeTotal(parse(last.timestamp), parse(x.timestamp));
          }
        }
        AppendSorted(parse, q, last);
      } else {
        assert forall k :: 0 <= k < |s| - 1 ==> StampLe(parse(s[k].timestamp), parse(last.timestamp));
        AppendSorted(parse, s, x);
      }
    }
  }

  /** The sort keeps the records and orders them. */
  lemma {:induction false} SortSorted(parse: Parser, s: seq<Record>)
    ensures SortedByStamp(parse, SortByStamp(parse, s))
    ensures multiset(SortByStamp(parse, s)) == multiset(s)
    decreases |s|
  {
    if s != [] {
      var p := s[..|s| - 1];
      assert s == p + [s[|s| - 1]];
      SortSorted(parse, p);
      InsertSorted(parse, SortByStamp(parse, p), s[|s| - 1]);
    }
  }

  /** Sorting an ordered sequence changes nothing. */
  lemma {:induction false} SortOfSorted(parse: Parser, s: seq<Record>)
    requires SortedByStamp(parse, s)
    ensures SortByStamp(parse, s) == s
    decreases |s|
  {
    if s != [] {
      var p := s[..|s| - 1];
      assert SortedByStamp(parse, p) by {
        forall i, j | 0 <= i < j < |p|
          ensures StampLe(parse(p[i].timestamp), parse(p[j].timestamp))
        {
          assert p[i] == s[i] && p[j] == s[j];
        }
      }
      SortOfSorted(parse, p);
      if |p| > 0 {
        assert StampLe(parse(p[|p| - 1].timestamp), parse(s[|s| - 1].timestamp));
      }
      assert s == p + [s[|s| - 1]];
    }
  }

  /** Inserting keeps the records of each sort key in order, a new record
      going last among those with its key. */
  lemma {:induction false} InsertWithStamp(parse: Parser, s: seq<Record>, x: Record, v: Option<int>)
    ensures WithStamp(parse, Insert(parse, s, x), v) ==
            WithStamp(parse, s, v) + (if parse(x.timestamp) == v then [x] else [])
    decreases |s|
  {
    if s == [] {
      assert [x][..0] == [];
    } else {
      var p := s[..|s| - 1];
      var last := s[|s| - 1];
      if StampLe(parse(last.timestamp), parse(x.timestamp)) {
        assert (s + [x])[..|s|] == s;
      } else {
        InsertWithStamp(parse, p, x, v);
        var q := Insert(parse, p, x);
        assert (q + [last])[..|q|] == q;
      }
    }
  }

  /** The sort is stable: the records of each sort key, the unparseable
      ones included, keep their relative order. */
  lemma {:induction false} SortStable(parse: Parser, s: seq<Record>, v: Option<int>)
    ensures WithStamp(parse, SortByStamp(parse, s), v) == WithStamp(parse, s, v)
    decreases |s|
  {
    if s != [] {
      var p := s[..|s| - 1];
      SortStable(parse, p, v);
      InsertWithStamp(parse, SortByStamp(parse, p), s[|s| - 1], v);
    }
  }

  lemma {:induction false} UnparsedHead(parse: Parser, s: seq<Record>)
    requires s != [] && parse(s[0].timestamp).None?
    ensures WithStamp(parse, s, None) != [] && WithStamp(parse, s, None)[0] == s[0]
    decreases |s|
  {
    if |s| > 1 {
      var p := s[..|s| - 1];
      assert p[0] == s[0];
      UnparsedHead(parse, p);
    } else {
      assert s[..0] == [];
    }
  }

  /** In a sorted sequence with an unparseable record the first record is
      the first unparseable one. */
  lemma {:induction false} SortedHead(parse: Parser, s: seq<Record>)
    requires SortedByStamp(parse, s) && WithStamp(parse, s, None) != []
    ensures parse(s[0].timestamp).None? && WithStamp(parse, s, None)[0] == s[0]
    decreases |s|
  {
    var p := s[..|s| - 1];
    var last := s[|s| - 1];
    if |s| == 1 {
      assert p == [];
    } else {
      assert parse(s[0].timestamp).None? by {
        if parse(s[0].timestamp).Some? {
          assert WithStamp(parse, p, None) != [] || parse(last.timestamp).None?;
          if parse(last.timestamp).None? {
            assert false;
          } else {
            assert SortedByStamp(parse, p) by {
              forall i, j | 0 <= i < j < |p|
                ensures StampLe(parse(p[i].timestamp), parse(p[j].timestamp))
              {
                assert p[i] == s[i] && p[j] == s[j];
              }
            }
            SortedHead(parse, p);
            assert false;
          }
        }
      }
      UnparsedHead(parse, s);
    }
  }

  // ------------------------------------------- properties of receive_sms

  /** The rows written: the sorted unique records of the old rows (those
      with at least three fields) followed by the batch. */
  lemma ReceiveContents(file: Option<Rows>, items: seq<SmsItem>, parse: Parser)
    ensures var written := Receive(file, items, parse).0.value;
      var stored := Loaded(written);
      && KeySet(stored) == KeySet(AllRecords(file, items))
      && DistinctKeys(stored)
      && SortedByStamp(parse, stored)
      && multiset(stored) == multiset(Dedup(AllRecords(file, items)))
      && forall v :: WithStamp(parse, stored, v) == WithStamp(parse, Dedup(AllRecords(file, items)), v)
  {
    var d := Dedup(AllRecords(file, items));
    var sorted := SortByStamp(parse, d);
    SortedRecords(file, items, parse);
    SortSorted(parse, d);
    LoadedRowsOf(sorted);
    forall v
      ensures WithStamp(parse, sorted, v) == WithStamp(parse, d, v)
    {
      SortStable(parse, d, v);
    }
  }

  lemma KeySetOfPermutation(a: seq<Record>, b: seq<Record>)
    requires multiset(a) == multiset(b)
    ensures KeySet(a) == KeySet(b) && |a| == |b|
  {
    assert forall r :: r in a <==> r in b by {
      forall r
        ensures r in a <==> r in b
      {
        assert r in a <==> r in multiset(a);
        assert r in b <==> r in multiset(b);
      }
    }
    assert |a| == |multiset(a)| == |multiset(b)| == |b|;
  }

  /** What the sort produces from the unique records. */
  lemma SortedRecords(file: Option<Rows>, items: seq<SmsItem>, parse: Parser)
    ensures var all := AllRecords(file, items);
      var sorted := SortByStamp(parse, Dedup(all));
      && KeySet(sorted) == KeySet(all) && DistinctKeys(sorted) && SortedByStamp(parse, sorted)
      && AllWellFormed(sorted)
  {
    var all := AllRecords(file, items);
    var d := Dedup(all);
    var sorted := SortByStamp(parse, d);
    assert KeySet(d) == KeySet(all) && |KeySet(d)| == |d| by {
      DedupKeys(all);
    }
    assert SortedByStamp(parse, sorted) && multiset(sorted) == multiset(d) by {
      SortSorted(parse, d);
    }
    assert KeySet(sorted) == KeySet(d) && |sorted| == |d| by {
      KeySetOfPermutation(sorted, d);
    }
    WellFormedKept(all, d, sorted);
  }

  /** Records drawn from well-formed ones, in any order, are well formed. */
  lemma WellFormedKept(all: seq<Record>, d: seq<Record>, sorted: seq<Record>)
    requires AllWellFormed(all) && forall k :: 0 <= k < |d| ==> d[k] in all
    requires multiset(sorted) == multiset(d)
    ensures AllWellFormed(sorted)
  {
    forall k | 0 <= k < |sorted|
      ensures WellFormed(sorted[k])
    {
      assert sorted[k] in multiset(d);
    }
  }

  /** Submitting the same batch again leaves the file as it is. */
  lemma ReceiveIdempotent(file: Option<Rows>, items: seq<SmsItem>, parse: Parser)
    ensures var once := Receive(file, items, parse);
      Receive(once.0, items, parse) == once
  {
    var all := AllRecords(file, items);
    var sorted := SortByStamp(parse, Dedup(all));
    SortedRecords(file, items, parse);
    LoadedRowsOf(sorted);
    KeySetConcat(if file.Some? then Loaded(file.value) else [], ItemRecords(items));
    var again := AllRecords(Some(RowsOf(sorted)), items);
    assert again == sorted + ItemRecords(items);
    DedupCovered(sorted, ItemRecords(items));
    SortOfSorted(parse, sorted);
  }

  /** The header row stays the first row. */
  lemma HeaderStaysFirst(rows: Rows, items: seq<SmsItem>, parse: Parser)
    requires rows != [] && rows[0] == Header && parse("timestamp").None?
    ensures Receive(Some(rows), items, parse).0.value != []
            && Receive(Some(rows), items, parse).0.value[0] == Header
  {
    var all := AllRecords(Some(rows), items);
    var d := Dedup(all);
    var sorted := SortByStamp(parse, d);
    HeadOfAll(rows, items);
    DedupHead(all);
    SortSorted(parse, d);
    SortStable(parse, d, None);
    UnparsedHead(parse, d);
    SortedHead(parse, sorted);
  }

  lemma {:induction false} LoadedHead(rows: Rows)
    requires rows != [] && |rows[0]| >= 3
    ensures Loaded(rows) != [] && Loaded(rows)[0] == RecordOfRow(rows[0])
    decreases |rows|
  {
    if |rows| > 1 {
      var p := rows[..|rows| - 1];
      assert p[0] == rows[0];
      LoadedHead(p);
    } else {
      assert rows[..0] == [];
    }
  }

  lemma HeadOfAll(rows: Rows, items: seq<SmsItem>)
    requires rows != [] && |rows[0]| >= 3
    ensures AllRecords(Some(rows), items) != [] && AllRecords(Some(rows), items)[0] == RecordOfRow(rows[0])
  {
    LoadedHead(rows);
  }

  lemma {:induction false} DedupHead(s: seq<Record>)
    requires s != []
    ensures Dedup(s) != [] && Dedup(s)[0] == s[0]
    decreases |s|
  {
    if |s| > 1 {
      var p := s[..|s| - 1];
      assert p[0] == s[0];
      DedupHead(p);
    } else {
      assert s[..0] == [];
    }
  }

  // ------------------------------------------------------------- finding

  /** As written, a file holding the header makes every batch that contains
      a parseable timestamp fail, and nothing is stored. */
  lemma HeaderBlocksDatedBatch(rows: Rows, items: seq<SmsItem>, parse: Parser, k: int)
    requires rows != [] && rows[0] == Header && parse("timestamp").None?
    requires 0 <= k < |items| && parse(items[k].timestamp).Some?
    ensures ReceiveAsWritten(Some(rows), items, parse) == (Some(rows), Failed)
  {
    var all := AllRecords(Some(rows), items);
    var d := Dedup(all);
    HeadOfAll(rows, items);
    DedupHead(all);
    DedupKeys(all);
    var x := ItemRecords(items)[k];
    assert all[|Loaded(rows)| + k] == x;
    assert KeyOf(x) in KeySet(all);
    assert KeyOf(x) in KeySet(d);
    var y :| y in d && KeyOf(y) == KeyOf(x);
    var m :| 0 <= m < |d| && d[m] == y;
    assert parse(d[m].timestamp).Some?;
    assert parse(d[0].timestamp).None?;
  }

  /** When no stamp parses, the real order and the corrected one agree. */
  lemma UniformStampsAgree(file: Option<Rows>, items: seq<SmsItem>, parse: Parser)
    requires forall k :: 0 <= k < |AllRecords(file, items)| ==> parse(AllRecords(file, items)[k].timestamp).None?
    ensures ReceiveAsWritten(file, items, parse) == Receive(file, items, parse)
  {
    var all := AllRecords(file, items);
    var d := Dedup(all);
    forall i | 0 <= i < |d|
      ensures parse(d[i].timestamp).None?
    {
      assert d[i] in all;
    }
  }

  // ------------------------------------------------------ get_last_sms

  /** `limit=0` returns every row after the header, because `[-0:]` is the
      whole list; a negative limit drops that many rows from the front. */
  lemma LastSmsLimits(rows: Rows)
    requires |rows| >= 3
    ensures LastRows(rows, 0) == rows
    ensures LastRows(rows, -2) == rows[2..]
    ensures LastRows(rows, 2) == rows[|rows| - 2..]
  {
  }

  // ------------------------------------------- the loops of receive_sms

  /** The reading loop: rows with at least three fields become records. */
  method LoadRecords(rows: Rows) returns (all: seq<Record>)
    ensures all == Loaded(rows)
  {
    all := [];
    var i := 0;
    while i < |rows|
      invariant 0 <= i <= |rows|
      invariant all == Loaded(rows[..i])
    {
      assert rows[..i + 1][..i] == rows[..i];
      if |rows[i]| >= 3 {
        all := all + [Record(rows[i][0], rows[i][1], rows[i][2], rows[i])];
      }
      i := i + 1;
    }
    assert rows[..|rows|] == rows;
  }

  /** The loop that appends the batch. */
  method AppendItems(loaded: seq<Record>, items: seq<SmsItem>) returns (all: seq<Record>)
    ensures all == loaded + ItemRecords(items)
  {
    all := loaded;
    var j := 0;
    while j < |items|
      invariant 0 <= j <= |items|
      invariant all == loaded + ItemRecords(items[..j])
    {
      assert items[..j + 1][..j] == items[..j];
      var it := items[j];
      all := all + [Record(it.timestamp, it.phone, it.message, [it.timestamp, it.phone, it.message])];
      j := j + 1;
    }
    assert items[..|items|] == items;
  }

  /** The `seen` loop: the first record of each key, in order. */
  method DedupRecords(all: seq<Record>) returns (unique: seq<Record>)
    ensures unique == Dedup(all)
  {
    var seen: set<(string, string, string)> := {};
    unique := [];
    var k := 0;
    while k < |all|
      invariant 0 <= k <= |all|
      invariant unique == Dedup(all[..k])
      invariant seen == KeySet(unique)
    {
      assert all[..k + 1][..k] == all[..k];
      var key := (all[k].timestamp, all[k].phone, all[k].message);
      if key !in seen {
        KeySetSnoc(unique, all[k]);
        seen := seen + {key};
        unique := unique + [all[k]];
      }
      k := k + 1;
    }
    assert all[..|all|] == all;
  }

  /** The writing loop: one row per record, its original row. */
  method WriteRecords(sorted: seq<Record>) returns (out: Rows)
    ensures out == RowsOf(sorted)
  {
    out := [];
    var m := 0;
    while m < |sorted|
      invariant 0 <= m <= |sorted|
      invariant out == RowsOf(sorted[..m])
    {
      out := out + [sorted[m].original];
      m := m + 1;
    }
    assert sorted[..|sorted|] == sorted;
  }

  // ---------------------------------------------------------- the store

  /** The CSV file of the SMS log: None while it does not exist. */
  class SmsLog {
    var file: Option<Rows>

    /** Importing the module creates the file with its header when missing. */
    constructor(existing: Option<Rows>)
      ensures existing.None? ==> file == Some([Header])
      ensures existing.Some? ==> file == existing
    {
      file := if existing.None? then Some([Header]) else existing;
    }

    /** `receive_sms`, with the intended timestamp order. */
    method ReceiveSms(items: seq<SmsItem>, parse: Parser) returns (resp: Response)
      modifies this
      ensures (file, resp) == Receive(old(file), items, parse)
    {
      var loaded: seq<Record> := [];
      if file.Some? {
        loaded := LoadRecords(file.value);
      }
      var all := AppendItems(loaded, items);
      var unique := DedupRecords(all);
      var sorted := SortByStamp(parse, unique);
      var out := WriteRecords(sorted);
      file := Some(out);
      resp := Stored(|items|, |sorted|);
    }

    /** `get_last_sms(limit)` */
    method GetLastSms(limit: int) returns (r: Listing)
      ensures r == LastSms(file, limit)
    {
      if file.None? {
        return Listed([]);
      }
      var rows := file.value;
      if rows == [] {
        return ListFailed;
      }
      var body := rows[1..];
      var kept := if |body| > limit then body[SliceBound(|body|, -limit)..] else body;
      var result: seq<SmsView> := [];
      var i := 0;
      while i < |kept|
        invariant 0 <= i <= |kept|
        invariant |result| == i
        invariant forall k :: 0 <= k < i ==> |kept[k]| >= 3 && result[k] == SmsView(kept[k][0], kept[k][1], kept[k][2])
      {
        if |kept[i]| < 3 {
          return ListFailed;
        }
        result := result + [SmsView(kept[i][0], kept[i][1], kept[i][2])];
        i := i + 1;
      }
      r := Listed(result);
    }
  }
}
