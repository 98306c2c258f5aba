/**
 * `fetch_and_store_stock_data`: the listing of a repository directory is
 * fetched, and every file whose name has no underscore is upserted into the
 * stock table under a symbol derived from its name. The HTTP request is a
 * parameter (the listing or the request error); the table is a map keyed
 * by symbol, updated in place.
 */
module MarketData {

  import opened Wrappers
  import opened Json
  import opened Http

  /**
   * The `name` field of a listing entry: absent, a string, or some other
   * value; for the latter, whether `"_" in name` holds (a list or a
   * dictionary with "_" as a member or key) rather than being false or
   * raising.
   */
  datatype NameField = Absent | Text(s: string) | NotText(holdsUnderscore: bool)

  /** A listing entry: an object with its name field, or something that is not an object. */
  datatype Item = Entry(name: NameField) | NotAnObject

  /** What fetching the listing gave: the request failed, the body is not iterable, or the list of entries. */
  datatype Fetch = RequestFailed(reason: string) | NotIterable | Fetched(items: seq<Item>)

  /** A stock row as stored: its source file and the two dates, both None here. */
  datatype StockRow = StockRow(sourceFile: string, startDate: Option<int>, latestDate: Option<int>)

  const SuccessMessage := "Stock data processed and stored successfully."
  const FetchFailedPrefix := "Failed to fetch data: "
  const UnexpectedPrefix := "An unexpected error occurred: "

  /** Python's `str.upper` on ASCII letters. */
  function Upper(s: string): (u: string)
    ensures |u| == |s|
    ensures forall i :: 0 <= i < |s| ==> u[i] == (if 'a' <= s[i] <= 'z' then (s[i] as int - 32) as char else s[i])
  {
    if s == [] then []
    else [if 'a' <= s[0] <= 'z' then (s[0] as int - 32) as char else s[0]] + Upper(s[1..])
  }

  const Csv := ".csv"

  /** `s.replace(".csv", "")`: every occurrence removed, scanning left to right. */
  function RemoveCsv(s: string): (r: string)
    ensures |r| <= |s|
    decreases |s|
  {
    if |s| >= 4 && s[..4] == Csv then RemoveCsv(s[4..])
    else if s == [] then []
    else [s[0]] + RemoveCsv(s[1..])
  }

  /** The stock symbol of a file name. */
  function Symbol(name: string): (r: string)
    ensures |r| <= |name|
    ensures forall i :: 0 <= i < |r| ==> !('a' <= r[i] <= 'z')
  {
    Upper(RemoveCsv(name))
  }

  /** ".csv" occurs in `s` at index `i`. */
  predicate CsvAt(s: string, i: nat)
  {
    i + 4 <= |s| && s[i..i + 4] == Csv
  }

  ghost predicate ContainsCsv(s: string)
  {
    exists i: nat :: CsvAt(s, i)
  }

  /** An occurrence in the tail is an occurrence one place further on in the whole. */
  lemma CsvAtTail(s: string, i: nat)
    requires |s| > 0
    ensures CsvAt(s[1..], i) <==> CsvAt(s, i + 1)
  {
    if i + 5 <= |s| {
      assert s[1..][i..i + 4] == s[i + 1..i + 5];
    }
  }

  lemma NoCsvInTail(s: string)
    requires |s| > 0 && !ContainsCsv(s)
    ensures !ContainsCsv(s[1..])
  {
    forall i: nat ensures !CsvAt(s[1..], i) {
      CsvAtTail(s, i);
    }
  }

  /** A name with no ".csv" in it is left as it is. */
  lemma {:induction false} RemoveCsvNone(s: string)
    requires !ContainsCsv(s)
    ensures RemoveCsv(s) == s
    decreases |s|
  {
    if s != [] {
      assert !CsvAt(s, 0);
      assert |s| >= 4 ==> s[..4] == s[0..4];
      NoCsvInTail(s);
      RemoveCsvNone(s[1..]);
      assert [s[0]] + s[1..] == s;
    }
  }

  /** For a stem with no ".csv" in it, the symbol of "<stem>.csv" is the upper-cased stem. */
  lemma {:induction false} SymbolOfCsvFile(stem: string)
    requires !ContainsCsv(stem)
    ensures Symbol(stem + Csv) == Upper(stem)
  {
    RemoveCsvStem(stem);
  }

  lemma {:induction false} RemoveCsvStem(stem: string)
    requires !ContainsCsv(stem)
    ensures RemoveCsv(stem + Csv) == stem
    decreases |stem|
  {
    var s := stem + Csv;
    if stem == [] {
      assert s[..4] == Csv && s[4..] == [];
    } else {
      if |stem| >= 4 {
        assert s[..4] == stem[..4];
        assert !CsvAt(stem, 0);
      } else {
        // ".csv" has no border (no proper prefix is also a suffix), so it
        // cannot straddle the end of the stem: its '.' sits where ".csv"
        // would need another letter.
        assert s[..4][|stem|] == '.';
        assert Csv[|stem|] != '.';
      }
      assert s[..4] != Csv;
      NoCsvInTail(stem);
      RemoveCsvStem(stem[1..]);
      assert s[1..] == stem[1..] + Csv;
      assert [stem[0]] + stem[1..] == stem;
    }
  }

  /** The name `item.get("name", "")` gives, when it is a string. */
  function NameOf(item: Item): Option<string>
  {
    match item
    case Entry(Absent) => Some("")
    case Entry(Text(s)) => Some(s)
    case Entry(NotText(_)) => None
    case NotAnObject => None
  }

  /**
   * The entry makes the loop raise: it has no `get`, or its name is not a
   * string and `"_" in name` is false or raises, so that `name.replace`
   * (or the `in` test itself) raises.
   */
  predicate Raises(item: Item)
  {
    item.NotAnObject? || item.name == NotText(false)
  }

  /** One step of the loop: None when the entry makes the loop raise, else the table after it. */
  function Step(rows: map<string, StockRow>, item: Item): (r: Option<map<string, StockRow>>)
    ensures r.None? <==> Raises(item)
    ensures Stored(item) ==> r == Some(rows[Symbol(NameOf(item).value) := StockRow(NameOf(item).value, None, None)])
    ensures !Raises(item) && !Stored(item) ==> r == Some(rows)
  {
    match item
    case NotAnObject => None
    case Entry(NotText(holdsUnderscore)) => if holdsUnderscore then Some(rows) else None
    case Entry(Absent) => Some(rows[Symbol("") := StockRow("", None, None)])
    case Entry(Text(name)) =>
      if '_' in name then Some(rows)
      else Some(rows[Symbol(name) := StockRow(name, None, None)])
  }

  /** The table after the loop over `items`, and whether the loop finished; it stops at the first entry that raises. */
  datatype Ingested = Ingested(rows: map<string, StockRow>, finished: bool)

  function Ingest(rows: map<string, StockRow>, items: seq<Item>): Ingested
    decreases |items|
  {
    if items == [] then Ingested(rows, true)
    else
      var before := Ingest(rows, items[..|items| - 1]);
      if !before.finished then before
      else
        var after := Step(before.rows, items[|items| - 1]);
        if after.None? then Ingested(before.rows, false) else Ingested(after.value, true)
  }

  /** The entry is stored: its name is a string with no underscore. */
  predicate Stored(item: Item)
  {
    NameOf(item).Some? && '_' !in NameOf(item).value
  }

  /** The stock table the view writes into. */
  class StockTable {
    var rows: map<string, StockRow>

    constructor (rows: map<string, StockRow>)
      ensures this.rows == rows
    {
      this.rows := rows;
    }

    /**
     * The view: a failed request answers 500 "Failed to fetch data: …"; the
     * loop upserts entry by entry, and an entry that makes it raise answers
     * 500 "An unexpected error occurred: …" with the earlier upserts kept;
     * a finished loop answers 200. `detail` is the text of that exception.
     */
    method FetchAndStore(fetch: Fetch, detail: string) returns (r: HttpResponse)
      modifies this
      ensures fetch.RequestFailed? ==>
        rows == old(rows) && r == HttpResponse(500, Some(JObj(map["error" := JStr(FetchFailedPrefix + fetch.reason)])))
      ensures fetch.NotIterable? ==>
        rows == old(rows) && r == HttpResponse(500, Some(JObj(map["error" := JStr(UnexpectedPrefix + detail)])))
      ensures fetch.Fetched? ==>
        var res := Ingest(old(rows), fetch.items);
        && rows == res.rows
        && r == (if res.finished then HttpResponse(200, Some(JObj(map["message" := JStr(SuccessMessage)])))
                 else HttpResponse(500, Some(JObj(map["error" := JStr(UnexpectedPrefix + detail)]))))
    {
      if fetch.RequestFailed? {
        return HttpResponse(500, Some(JObj(map["error" := JStr(FetchFailedPrefix + fetch.reason)])));
      }
      if fetch.NotIterable? {
        return HttpResponse(500, Some(JObj(map["error" := JStr(UnexpectedPrefix + detail)])));
      }
      var items := fetch.items;
      for i := 0 to |items|
        invariant Ingest(old(rows), items[..i]) == Ingested(rows, true)
      {
        assert items[..i + 1][..i] == items[..i];
        if Raises(items[i]) {
          IngestStopped(old(rows), items, i + 1);
          return HttpResponse(500, Some(JObj(map["error" := JStr(UnexpectedPrefix + detail)])));
        }
        var name := NameOf(items[i]);
        if name.Some? && '_' !in name.value {
          var sourceFile := name.value;
          var symbol := Symbol(name.value);
          rows := rows[symbol := StockRow(sourceFile, None, None)];
        }
      }
      assert items[..|items|] == items;
      return HttpResponse(200, Some(JObj(map["message" := JStr(SuccessMessage)])));
    }
  }

  // ---- what the loop promises

  /** Once the loop has stopped, later entries change nothing. */
  lemma {:induction false} IngestStopped(rows: map<string, StockRow>, items: seq<Item>, j: nat)
    requires j <= |items| && !Ingest(rows, items[..j]).finished
    ensures Ingest(rows, items) == Ingest(rows, items[..j])
    decreases |items|
  {
    if j < |items| {
      var init := items[..|items| - 1];
      assert init[..j] == items[..j];
      IngestStopped(rows, init, j);
    } else {
      assert items[..j] == items;
    }
  }

  /** The entry is stored under symbol `k`. */
  predicate StoredAs(item: Item, k: string)
  {
    Stored(item) && Symbol(NameOf(item).value) == k
  }

  /**
   * After a finished loop, a symbol is in the table exactly when it was
   * there before or some stored entry has it, and entries with an underscore
   * leave no trace.
   */
  lemma {:induction false} IngestKeys(rows: map<string, StockRow>, items: seq<Item>)
    requires Ingest(rows, items).finished
    ensures forall k :: k in Ingest(rows, items).rows <==>
      (k in rows || exists i :: 0 <= i < |items| && StoredAs(items[i], k))
    decreases |items|
  {
    if items != [] {
      var init := items[..|items| - 1];
      IngestKeys(rows, init);
      forall k ensures k in Ingest(rows, items).rows <==>
        (k in rows || exists i :: 0 <= i < |items| && StoredAs(items[i], k))
      {
        StoredAsSnoc(items, init, k);
      }
    }
  }

  /** A stored entry with symbol `k` is among the earlier entries or is the last one. */
  lemma StoredAsSnoc(items: seq<Item>, init: seq<Item>, k: string)
    requires |items| > 0 && init == items[..|items| - 1]
    ensures (exists i :: 0 <= i < |items| && StoredAs(items[i], k)) <==>
      (exists i :: 0 <= i < |init| && StoredAs(init[i], k)) || StoredAs(items[|items| - 1], k)
  {
    if exists i :: 0 <= i < |items| && StoredAs(items[i], k) {
      var i :| 0 <= i < |items| && StoredAs(items[i], k);
      if i < |items| - 1 {
        assert StoredAs(init[i], k);
      }
    }
    if exists i :: 0 <= i < |init| && StoredAs(init[i], k) {
      var i :| 0 <= i < |init| && StoredAs(init[i], k);
      assert StoredAs(items[i], k);
    }
  }

  /**
   * The last stored entry with a given symbol wins: after a finished loop the
   * row under its symbol names its file, with both dates None.
   */
  lemma {:induction false} IngestLastWins(rows: map<string, StockRow>, items: seq<Item>, i: nat)
    requires Ingest(rows, items).finished
    requires i < |items| && Stored(items[i])
    requires forall j :: i < j < |items| && Stored(items[j]) ==> Symbol(NameOf(items[j]).value) != Symbol(NameOf(items[i]).value)
    ensures var k := Symbol(NameOf(items[i]).value);
      k in Ingest(rows, items).rows && Ingest(rows, items).rows[k] == StockRow(NameOf(items[i]).value, None, None)
    decreases |items|
  {
    var init := items[..|items| - 1];
    if i < |items| - 1 {
      forall j | i < j < |init| && Stored(init[j])
        ensures Symbol(NameOf(init[j]).value) != Symbol(NameOf(init[i]).value)
      {
        assert init[j] == items[j];
      }
      IngestLastWins(rows, init, i);
    }
  }

  /**
   * An entry whose name has an underscore changes nothing, and neither does
   * one whose name is a list or dictionary holding "_".
   */
  lemma UnderscoreSkipped(rows: map<string, StockRow>, items: seq<Item>, name: string)
    requires '_' in name
    ensures Ingest(rows, items + [Entry(Text(name))]) == Ingest(rows, items)
    ensures Ingest(rows, items + [Entry(NotText(true))]) == Ingest(rows, items)
  {
    assert (items + [Entry(Text(name))])[..|items|] == items;
    assert (items + [Entry(NotText(true))])[..|items|] == items;
  }

  /** A name that is neither a string nor a container holding "_" stops the loop, keeping the table. */
  lemma NonStringNameRaises(rows: map<string, StockRow>, items: seq<Item>)
    requires Ingest(rows, items).finished
    ensures Ingest(rows, items + [Entry(NotText(false))]) == Ingested(Ingest(rows, items).rows, false)
  {
    assert (items + [Entry(NotText(false))])[..|items|] == items;
  }

  /**
   * Whether or not the loop finished, a symbol that was in the table and
   * that no stored entry has keeps its row.
   */
  lemma {:induction false} IngestKeepsUntouched(rows: map<string, StockRow>, items: seq<Item>, k: string)
    requires k in rows && !(exists i :: 0 <= i < |items| && StoredAs(items[i], k))
    ensures k in Ingest(rows, items).rows && Ingest(rows, items).rows[k] == rows[k]
    decreases |items|
  {
    if items != [] {
      var init := items[..|items| - 1];
      StoredAsSnoc(items, init, k);
      IngestKeepsUntouched(rows, init, k);
    }
  }

  /** An entry with no name is stored under the empty symbol, with an empty file name. */
  lemma MissingNameStoredEmpty(rows: map<string, StockRow>, items: seq<Item>)
    requires Ingest(rows, items).finished
    ensures var res := Ingest(rows, items + [Entry(Absent)]);
      res.finished && "" in res.rows && res.rows[""] == StockRow("", None, None)
  {
    assert (items + [Entry(Absent)])[..|items|] == items;
    assert Symbol("") == "";
  }
}
