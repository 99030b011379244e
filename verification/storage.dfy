/**
 * The two sinks a processed reading can reach, as sequences of rows: the
 * `sensor_readings` table of the SQLite database and the dated CSV file, and
 * the query `get_historical_data` runs against the table.
 */
module Storage {
  import opened Wrappers
  import opened Sensor

  /** One row of `sensor_readings`, in the column order of the INSERT. */
  datatype StoreRow = StoreRow(timestamp: real, voltage: real, temperature: real, current: real)

  /** One line of the CSV file: the header, or a row in the column order of the header. */
  datatype CsvLine =
    | Header
    | Row(timestamp: real, voltage: real, current: real, temperature: real, power: real)

  /** A reading that went through `process_data`, with its time and whether it was synthetic. */
  datatype Sample = Sample(reading: Triple, at: real, isDemo: bool)

  /** The database row `store_data` inserts for a sample. */
  function StoreRowOf(s: Sample): StoreRow {
    StoreRow(s.at, s.reading.voltage, s.reading.temperature, s.reading.current)
  }

  /** The power column: voltage times current. */
  function Power(voltage: real, current: real): real {
    voltage * current
  }

  /** The CSV row `store_csv_data` appends for a sample. */
  function CsvRowOf(s: Sample): CsvLine {
    Row(s.at, s.reading.voltage, s.reading.current, s.reading.temperature,
        Power(s.reading.voltage, s.reading.current))
  }

  /** The file `init_csv_storage` leaves behind: a lone header when there was no file, else the file untouched. */
  function InitCsvFile(existing: Option<seq<CsvLine>>): seq<CsvLine> {
    match existing
    case None => [Header]
    case Some(lines) => lines
  }

  /** Setting up the CSV file a second time changes nothing, and a new file starts with its header. */
  lemma InitCsvFileIdempotent(existing: Option<seq<CsvLine>>)
    ensures InitCsvFile(Some(InitCsvFile(existing))) == InitCsvFile(existing)
    ensures existing.None? ==> InitCsvFile(existing) == [Header]
    ensures existing.Some? ==> InitCsvFile(existing) == existing.value
  {
  }

  /** The database rows one processed sample adds: one row unless the reading is all zeros. */
  function StoreAdded(s: Sample): (rows: seq<StoreRow>)
    ensures |rows| == if IsValid(s.reading) then 1 else 0
  {
    if IsValid(s.reading) then [StoreRowOf(s)] else []
  }

  /** The CSV rows one processed sample adds: one row only for a valid reading that is not synthetic. */
  function CsvAdded(s: Sample): (lines: seq<CsvLine>)
    ensures |lines| == if IsValid(s.reading) && !s.isDemo then 1 else 0
  {
    if IsValid(s.reading) && !s.isDemo then [CsvRowOf(s)] else []
  }

  /** The rows the database gains from a sequence of processed samples: one per valid sample, in order. */
  function StoreImage(log: seq<Sample>): seq<StoreRow>
    decreases |log|
  {
    if log == [] then [] else StoreImage(log[..|log| - 1]) + StoreAdded(log[|log| - 1])
  }

  /** The rows the CSV file gains: one per valid sample that is not synthetic, in order. */
  function CsvImage(log: seq<Sample>): seq<CsvLine>
    decreases |log|
  {
    if log == [] then [] else CsvImage(log[..|log| - 1]) + CsvAdded(log[|log| - 1])
  }

  /**
   * Processing one more sample extends both sinks, whatever they held
   * before the log began, by what that sample alone contributes.
   */
  lemma ImagesAppend(store0: seq<StoreRow>, csv0: seq<CsvLine>, log: seq<Sample>, s: Sample)
    ensures store0 + StoreImage(log + [s]) == store0 + StoreImage(log) + StoreAdded(s)
    ensures csv0 + CsvImage(log + [s]) == csv0 + CsvImage(log) + CsvAdded(s)
  {
    assert (log + [s])[..|log|] == log;
    assert store0 + (StoreImage(log) + StoreAdded(s)) == store0 + StoreImage(log) + StoreAdded(s);
    assert csv0 + (CsvImage(log) + CsvAdded(s)) == csv0 + CsvImage(log) + CsvAdded(s);
  }

  /** An all-zero sample reaches neither sink; a synthetic sample never reaches the CSV file. */
  lemma SkippedSamples(log: seq<Sample>, s: Sample)
    ensures !IsValid(s.reading) ==> StoreImage(log + [s]) == StoreImage(log) && CsvImage(log + [s]) == CsvImage(log)
    ensures s.isDemo ==> CsvImage(log + [s]) == CsvImage(log)
    ensures IsValid(s.reading) ==> |StoreImage(log + [s])| == |StoreImage(log)| + 1
  {
    ImagesAppend([], [], log, s);
    assert [] + StoreImage(log) == StoreImage(log) && [] + CsvImage(log) == CsvImage(log);
    assert [] + StoreImage(log + [s]) == StoreImage(log + [s]) && [] + CsvImage(log + [s]) == CsvImage(log + [s]);
  }

  /** `row` is the database row of some valid sample of `log`. */
  predicate StoredFrom(log: seq<Sample>, row: StoreRow) {
    exists j :: 0 <= j < |log| && IsValid(log[j].reading) && row == StoreRowOf(log[j])
  }

  /** `line` is the CSV row of some valid, non-synthetic sample of `log`. */
  predicate WrittenFrom(log: seq<Sample>, line: CsvLine) {
    exists j :: 0 <= j < |log| && IsValid(log[j].reading) && !log[j].isDemo && line == CsvRowOf(log[j])
  }

  /** Every database row comes from a valid sample of the log. */
  lemma {:induction false} StoreRowsFromValidSamples(log: seq<Sample>)
    ensures forall i :: 0 <= i < |StoreImage(log)| ==> StoredFrom(log, StoreImage(log)[i])
    decreases |log|
  {
    if log != [] {
      var n := |log| - 1;
      var init := log[..n];
      var image := StoreImage(log);
      StoreRowsFromValidSamples(init);
      assert image == StoreImage(init) + StoreAdded(log[n]);
      forall i | 0 <= i < |image| ensures StoredFrom(log, image[i]) {
        if i < |StoreImage(init)| {
          assert image[i] == StoreImage(init)[i];
          assert StoredFrom(init, StoreImage(init)[i]);
          var j :| 0 <= j < |init| && IsValid(init[j].reading) && StoreImage(init)[i] == StoreRowOf(init[j]);
          assert log[j] == init[j];
        } else {
          assert image[i] == StoreRowOf(log[n]);
        }
      }
    }
  }

  /**
   * Every CSV row comes from a valid sample of the log that is not synthetic,
   * and carries power = voltage * current.
   */
  lemma {:induction false} CsvRowsFromRealSamples(log: seq<Sample>)
    ensures forall i :: 0 <= i < |CsvImage(log)| ==> WrittenFrom(log, CsvImage(log)[i])
    ensures forall i :: 0 <= i < |CsvImage(log)| ==>
      CsvImage(log)[i].Row? && CsvImage(log)[i].power == Power(CsvImage(log)[i].voltage, CsvImage(log)[i].current)
    decreases |log|
  {
    if log != [] {
      var n := |log| - 1;
      var init := log[..n];
      var image := CsvImage(log);
      CsvRowsFromRealSamples(init);
      assert image == CsvImage(init) + CsvAdded(log[n]);
      forall i | 0 <= i < |image| ensures WrittenFrom(log, image[i]) {
        if i < |CsvImage(init)| {
          assert image[i] == CsvImage(init)[i];
          assert WrittenFrom(init, CsvImage(init)[i]);
          var j :| 0 <= j < |init| && IsValid(init[j].reading) && !init[j].isDemo && CsvImage(init)[i] == CsvRowOf(init[j]);
          assert log[j] == init[j];
        } else {
          assert image[i] == CsvRowOf(log[n]);
        }
      }
    }
  }

  /** The CSV file never gains more rows than the database. */
  lemma {:induction false} CsvNoLongerThanStore(log: seq<Sample>)
    ensures |CsvImage(log)| <= |StoreImage(log)|
    decreases |log|
  {
    if log != [] {
      CsvNoLongerThanStore(log[..|log| - 1]);
    }
  }

  /** Rows in non-increasing timestamp order, as `ORDER BY timestamp DESC` returns them. */
  predicate SortedDesc(rows: seq<StoreRow>) {
    forall i, j :: 0 <= i < j < |rows| ==> rows[i].timestamp >= rows[j].timestamp
  }

  /** `r` placed into descending rows after every row at least as recent. */
  function Insert(r: StoreRow, rows: seq<StoreRow>): (out: seq<StoreRow>)
    ensures multiset(out) == multiset(rows) + multiset{r}
    ensures |out| == |rows| + 1
  {
    if rows == [] || rows[0].timestamp < r.timestamp then [r] + rows
    else
      assert rows == [rows[0]] + rows[1..];
      [rows[0]] + Insert(r, rows[1..])
  }

  lemma {:induction false} InsertSorted(r: StoreRow, rows: seq<StoreRow>)
    requires SortedDesc(rows)
    ensures SortedDesc(Insert(r, rows))
    decreases |rows|
  {
    if !(rows == [] || rows[0].timestamp < r.timestamp) {
      InsertSorted(r, rows[1..]);
      var out := Insert(r, rows);
      assert out == [rows[0]] + Insert(r, rows[1..]);
      forall k | 0 <= k < |out| ensures rows[0].timestamp >= out[k].timestamp {
        if k > 0 {
          assert out[k] in multiset(Insert(r, rows[1..]));
          assert out[k] in multiset(rows[1..]) + multiset{r};
          if out[k] in multiset(rows[1..]) {
            var m :| 0 <= m < |rows[1..]| && rows[1..][m] == out[k];
            assert rows[m + 1] == out[k];
          }
        }
      }
    }
  }

  /** The table's rows in the order `ORDER BY timestamp DESC` gives them. */
  function SortDesc(rows: seq<StoreRow>): (sorted: seq<StoreRow>)
    ensures |sorted| == |rows|
    decreases |rows|
  {
    if rows == [] then [] else Insert(rows[0], SortDesc(rows[1..]))
  }

  /** Sorting orders the rows. */
  lemma {:induction false} SortDescSorted(rows: seq<StoreRow>)
    ensures SortedDesc(SortDesc(rows))
    decreases |rows|
  {
    if rows != [] {
      SortDescSorted(rows[1..]);
      InsertSorted(rows[0], SortDesc(rows[1..]));
    }
  }

  /** Sorting neither loses nor invents a row. */
  lemma {:induction false} SortDescPermutes(rows: seq<StoreRow>)
    ensures multiset(SortDesc(rows)) == multiset(rows)
    decreases |rows|
  {
    if rows != [] {
      SortDescPermutes(rows[1..]);
      FirstAndRest(rows);
    }
  }

  /** A nonempty sequence holds its first element and the rest. */
  lemma FirstAndRest(rows: seq<StoreRow>)
    requires rows != []
    ensures multiset(rows) == multiset(rows[1..]) + multiset{rows[0]}
  {
    assert rows == [rows[0]] + rows[1..];
  }

  /**
   * The rows `get_historical_data(limit)` reads: the table in descending
   * timestamp order, cut to `limit` rows; a negative `limit` is no limit at all
   * in SQLite.
   */
  function Query(rows: seq<StoreRow>, limit: int): seq<StoreRow> {
    var sorted := SortDesc(rows);
    if limit < 0 || limit >= |sorted| then sorted else sorted[..limit]
  }

  /**
   * The query returns `min(limit, |rows|)` rows (all of them for a negative
   * limit), newest first, drawn from the table, and no row left out is newer
   * than a row returned.
   */
  lemma QuerySpec(rows: seq<StoreRow>, limit: int)
    ensures |Query(rows, limit)| == if limit < 0 || limit >= |rows| then |rows| else limit
    ensures SortedDesc(Query(rows, limit))
    ensures multiset(Query(rows, limit)) <= multiset(rows)
    ensures forall x, y ::
      x in multiset(rows) - multiset(Query(rows, limit)) && y in Query(rows, limit) ==> x.timestamp <= y.timestamp
  {
    var sorted := SortDesc(rows);
    SortDescSorted(rows);
    SortDescPermutes(rows);
    var k := if limit < 0 || limit >= |sorted| then |sorted| else limit;
    assert Query(rows, limit) == sorted[..k];
    PrefixSorted(sorted, k);
    PrefixTopK(sorted, k);
  }

  /** The first `k` rows of descending rows are descending. */
  lemma PrefixSorted(sorted: seq<StoreRow>, k: nat)
    requires SortedDesc(sorted) && k <= |sorted|
    ensures SortedDesc(sorted[..k])
  {
    forall i, j | 0 <= i < j < k
      ensures sorted[..k][i].timestamp >= sorted[..k][j].timestamp
    {
      assert sorted[..k][i] == sorted[i] && sorted[..k][j] == sorted[j];
    }
  }

  /**
   * The first `k` rows of descending rows are drawn from them, and nothing
   * after them is newer than anything among them.
   */
  lemma PrefixTopK(sorted: seq<StoreRow>, k: nat)
    requires SortedDesc(sorted) && k <= |sorted|
    ensures multiset(sorted[..k]) <= multiset(sorted)
    ensures forall x, y ::
      x in multiset(sorted) - multiset(sorted[..k]) && y in sorted[..k] ==> x.timestamp <= y.timestamp
  {
    var q := sorted[..k];
    var rest := sorted[k..];
    PrefixAndRest(sorted, k);
    forall x: StoreRow, y: StoreRow | x in multiset(rest) && y in q
      ensures x.timestamp <= y.timestamp
    {
      InRest(sorted, k, x);
      InPrefix(sorted, k, y);
      var m :| k <= m < |sorted| && sorted[m] == x;
      var l :| 0 <= l < k && sorted[l] == y;
    }
  }

  /** A row among the ones after the first `k` sits at some position from `k` on. */
  lemma InRest(rows: seq<StoreRow>, k: nat, x: StoreRow)
    requires k <= |rows| && x in multiset(rows[k..])
    ensures exists m :: k <= m < |rows| && rows[m] == x
  {
    assert x in rows[k..];
    var m :| 0 <= m < |rows[k..]| && rows[k..][m] == x;
    assert rows[k + m] == x;
  }

  /** A row among the first `k` sits at some position before `k`. */
  lemma InPrefix(rows: seq<StoreRow>, k: nat, y: StoreRow)
    requires k <= |rows| && y in rows[..k]
    ensures exists l :: 0 <= l < k && rows[l] == y
  {
    var l :| 0 <= l < k && rows[..k][l] == y;
    assert rows[l] == y;
  }

  /** Cutting a sequence in two splits its rows between the halves. */
  lemma PrefixAndRest(rows: seq<StoreRow>, k: nat)
    requires k <= |rows|
    ensures multiset(rows[..k]) <= multiset(rows)
    ensures multiset(rows) - multiset(rows[..k]) == multiset(rows[k..])
  {
    assert rows == rows[..k] + rows[k..];
  }

  /** `s` backwards. */
  function Reverse(s: seq<StoreRow>): (r: seq<StoreRow>)
    ensures |r| == |s|
  {
    if s == [] then [] else Reverse(s[1..]) + [s[0]]
  }

  /** Strictly increasing timestamps: the rows as they were inserted, one per moment. */
  predicate Ascending(rows: seq<StoreRow>) {
    forall i, j :: 0 <= i < j < |rows| ==> rows[i].timestamp < rows[j].timestamp
  }

  /** A row older than every row of a descending list goes to its end. */
  lemma {:induction false} InsertOldest(r: StoreRow, rows: seq<StoreRow>)
    requires forall k :: 0 <= k < |rows| ==> r.timestamp < rows[k].timestamp
    ensures Insert(r, rows) == rows + [r]
    decreases |rows|
  {
    if rows != [] {
      InsertOldest(r, rows[1..]);
      assert [rows[0]] + (rows[1..] + [r]) == rows + [r];
    }
  }

  lemma {:induction false} ReverseMembers(s: seq<StoreRow>)
    ensures forall k :: 0 <= k < |s| ==> Reverse(s)[k] == s[|s| - 1 - k]
    decreases |s|
  {
    if s != [] {
      ReverseMembers(s[1..]);
    }
  }

  /** Rows inserted in strictly increasing time come back newest first: the sort reverses them. */
  lemma {:induction false} SortAscendingIsReverse(rows: seq<StoreRow>)
    requires Ascending(rows)
    ensures SortDesc(rows) == Reverse(rows)
    decreases |rows|
  {
    if rows != [] {
      var tail := rows[1..];
      SortAscendingIsReverse(tail);
      ReverseMembers(tail);
      forall k | 0 <= k < |Reverse(tail)|
        ensures rows[0].timestamp < Reverse(tail)[k].timestamp
      {
        assert Reverse(tail)[k] == rows[|tail| - k];
      }
      InsertOldest(rows[0], Reverse(tail));
    }
  }

  /**
   * With strictly increasing timestamps the query is the first `limit` rows of
   * the table reversed: for rows at t1 < t2 < t3 < t4 and limit 3 it returns
   * the rows at t4, t3, t2.
   */
  lemma QueryOfAscending(rows: seq<StoreRow>, limit: int)
    requires Ascending(rows)
    ensures Query(rows, limit) == if limit < 0 || limit >= |rows| then Reverse(rows) else Reverse(rows)[..limit]
  {
    SortAscendingIsReverse(rows);
  }

  /** The four-row example: rows at t1 < t2 < t3 < t4 with limit 3 give t4, t3, t2. */
  lemma QueryExample(a: StoreRow, b: StoreRow, c: StoreRow, d: StoreRow)
    requires a.timestamp < b.timestamp < c.timestamp < d.timestamp
    ensures Query([a, b, c, d], 3) == [d, c, b]
  {
    var rows := [a, b, c, d];
    QueryOfAscending(rows, 3);
    ReverseMembers(rows);
  }
}
