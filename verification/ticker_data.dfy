/** The pure parts of the ticker-data utilities: choosing the download
    window for an incremental update, editing a ticker list, and cleaning
    the tickers scraped from the S&P 500 table. File and network access is
    outside the model. */
module TickerData {
  import opened Basics

  // ---------------------------------------------------------------------
  // Incremental update window
  // ---------------------------------------------------------------------

  /** What the incremental updater does for one ticker whose file exists,
      given the whole days since its last stored bar. */
  datatype UpdatePlan =
    | NoUpdateNeeded            // nothing is fetched or written
    | Fetch(period: string)     // download this history period and append it
    | UseFullRefresh            // too stale: skip, and suggest a full download

  /** The history periods the finance data source accepts. */
  const ValidPeriods: set<string> := {"1d", "5d", "1mo", "3mo", "6mo", "1y", "2y", "5y", "10y", "ytd", "max"}

  /** The chain of tests the updater applies to `delta`, in its order. */
  function PlanForDelta(delta: int): (r: UpdatePlan)
    requires delta >= 0
    ensures r == NoUpdateNeeded <==> delta == 0
    ensures r == Fetch("1d") <==> delta == 1
    ensures r == Fetch("1mo") <==> 2 <= delta <= 31
    ensures r == Fetch("3mo") <==> 32 <= delta <= 93
    ensures r == UseFullRefresh <==> delta > 93
    ensures r.Fetch? ==> r.period in ValidPeriods
  {
    if delta == 0 then NoUpdateNeeded
    else if delta == 1 then Fetch("1d")
    else if delta > 1 && delta < 32 then Fetch("1mo")
    else if delta > 31 && delta < 94 then Fetch("3mo")
    else UseFullRefresh
  }

  /** The size of the history a plan asks for, as a rank: nothing, one day,
      one month, three months, then a full refresh. The updater requests no
      other period; any other one gets a rank of its own, 5, which says
      nothing about its length. */
  function Reach(p: UpdatePlan): nat
  {
    match p
    case NoUpdateNeeded => 0
    case Fetch(period) =>
      if period == "1d" then 1
      else if period == "1mo" then 2
      else if period == "3mo" then 3
      else 5
    case UseFullRefresh => 4
  }

  /** The staler the data, the larger the window: the plan never shrinks as
      `delta` grows. */
  lemma PlanGrowsWithDelta(d1: int, d2: int)
    requires 0 <= d1 <= d2
    ensures Reach(PlanForDelta(d1)) <= Reach(PlanForDelta(d2))
  {
  }

  /** The state of one ticker's price file as the updater finds it. */
  datatype TickerFile = Missing | Present(daysSinceLastBar: int)

  /** What the updater does for one ticker of its list. */
  datatype TickerUpdate = FileNotFound | Planned(plan: UpdatePlan)

  predicate Writes(u: TickerUpdate)
  {
    u.Planned? && u.plan.Fetch?
  }

  /** The per-ticker decisions of one pass of the incremental updater over a
      ticker list, in list order. */
  function PlanUpdates(files: seq<TickerFile>): (r: seq<TickerUpdate>)
    requires forall i :: 0 <= i < |files| && files[i].Present? ==> files[i].daysSinceLastBar >= 0
    ensures |r| == |files|
    ensures forall i :: 0 <= i < |files| ==> (r[i] == FileNotFound <==> files[i].Missing?)
    // a file is appended to exactly when it exists and is between one and 93 days old
    ensures forall i :: 0 <= i < |files| ==>
              (Writes(r[i]) <==> files[i].Present? && 1 <= files[i].daysSinceLastBar <= 93)
    // an existing file gets the plan its age selects
    ensures forall i :: 0 <= i < |files| && files[i].Present? ==>
              r[i] == Planned(PlanForDelta(files[i].daysSinceLastBar))
  {
    if |files| == 0 then []
    else
      var f := files[|files| - 1];
      var u := if f.Missing? then FileNotFound else Planned(PlanForDelta(f.daysSinceLastBar));
      PlanUpdates(files[..|files| - 1]) + [u]
  }

  // ---------------------------------------------------------------------
  // Ticker lists
  // ---------------------------------------------------------------------

  /** Adding a ticker appends one row at the end of the list. */
  function AddTicker(tickers: seq<string>, name: string): (r: seq<string>)
    ensures |r| == |tickers| + 1
    ensures r[..|tickers|] == tickers && r[|tickers|] == name
  {
    tickers + [name]
  }

  /** Reference meaning of removal: the list with every row equal to `name`
      left out and the other rows kept in order. */
  function Without(tickers: seq<string>, name: string): seq<string>
  {
    if |tickers| == 0 then []
    else (if tickers[0] == name then [] else [tickers[0]]) + Without(tickers[1..], name)
  }

  lemma {:induction false} WithoutConcat(a: seq<string>, b: seq<string>, name: string)
    ensures Without(a + b, name) == Without(a, name) + Without(b, name)
  {
    if |a| > 0 {
      assert (a + b)[1..] == a[1..] + b;
      WithoutConcat(a[1..], b, name);
    } else {
      assert a + b == b;
    }
  }

  /** Removal as the updater performs it: first collect the row numbers that
      hold `name`, then drop those rows. */
  method RemoveTicker(tickers: seq<string>, name: string) returns (r: seq<string>)
    ensures r == Without(tickers, name)
  {
    var dropList: seq<nat> := [];
    var i := 0;
    while i < |tickers|
      invariant 0 <= i <= |tickers|
      invariant forall k: nat :: k in dropList <==> k < i && tickers[k] == name
    {
      if tickers[i] == name {
        dropList := dropList + [i];
      }
      i := i + 1;
    }
    r := [];
    var j := 0;
    while j < |tickers|
      invariant 0 <= j <= |tickers|
      invariant r == Without(tickers[..j], name)
    {
      WithoutConcat(tickers[..j], [tickers[j]], name);
      assert tickers[..j + 1] == tickers[..j] + [tickers[j]];
      if j !in dropList {
        r := r + [tickers[j]];
      }
      j := j + 1;
    }
    assert tickers[..j] == tickers;
  }

  /** Removal leaves no row equal to `name` and keeps every other row, with
      its number of occurrences. */
  lemma {:induction false} WithoutRemovesExactly(tickers: seq<string>, name: string)
    ensures name !in Without(tickers, name)
    ensures forall x :: x != name ==> multiset(Without(tickers, name))[x] == multiset(tickers)[x]
    ensures |Without(tickers, name)| == |tickers| - multiset(tickers)[name]
  {
    if |tickers| > 0 {
      WithoutRemovesExactly(tickers[1..], name);
      assert tickers == [tickers[0]] + tickers[1..];
    }
  }

  /** Removing twice is the same as removing once. */
  lemma {:induction false} WithoutIdempotent(tickers: seq<string>, name: string)
    ensures Without(Without(tickers, name), name) == Without(tickers, name)
  {
    if |tickers| > 0 {
      WithoutIdempotent(tickers[1..], name);
      var head := if tickers[0] == name then [] else [tickers[0]];
      WithoutConcat(head, Without(tickers[1..], name), name);
    }
  }

  /** A list without `name` is left exactly as it was. */
  lemma {:induction false} WithoutAbsent(tickers: seq<string>, name: string)
    requires name !in tickers
    ensures Without(tickers, name) == tickers
  {
    if |tickers| > 0 {
      assert tickers[1..] == tickers[..][1..];
      WithoutAbsent(tickers[1..], name);
      assert tickers == [tickers[0]] + tickers[1..];
    }
  }

  /** Removing a ticker undoes adding it, and removes any older copies too. */
  lemma AddThenRemove(tickers: seq<string>, name: string)
    ensures Without(AddTicker(tickers, name), name) == Without(tickers, name)
  {
    WithoutConcat(tickers, [name], name);
    assert Without([name], name) == [];
  }

  /** Removing a different ticker keeps a just-added row at the end. */
  lemma AddThenRemoveOther(tickers: seq<string>, name: string, other: string)
    requires other != name
    ensures Without(AddTicker(tickers, name), other) == AddTicker(Without(tickers, other), name)
  {
    WithoutConcat(tickers, [name], other);
    assert Without([name], other) == [name];
  }

  // ---------------------------------------------------------------------
  // S&P 500 ticker scraping
  // ---------------------------------------------------------------------

  /** Every `.` of a symbol becomes `-`, the spelling the data source uses. */
  function DotsToDashes(s: string): (r: string)
    ensures |r| == |s|
    ensures forall i :: 0 <= i < |s| ==> r[i] == (if s[i] == '.' then '-' else s[i])
  {
    if |s| == 0 then ""
    else DotsToDashes(s[..|s| - 1]) + [if s[|s| - 1] == '.' then '-' else s[|s| - 1]]
  }

  /** Python's `s[:-1]`: the last character removed, and "" stays "". */
  function DropLast(s: string): string
  {
    if |s| == 0 then s else s[..|s| - 1]
  }

  /** The ticker taken from one table cell's text. */
  function NormaliseTicker(cell: string): (r: string)
    ensures '.' !in r
    ensures |r| == if |cell| == 0 then 0 else |cell| - 1
    ensures forall i :: 0 <= i < |r| ==> r[i] == (if cell[i] == '.' then '-' else cell[i])
  {
    DropLast(DotsToDashes(cell))
  }

  /** A cell holding a symbol followed by one trailing character (the
      line break after it) yields the symbol with dots made dashes. */
  lemma NormaliseDropsTrailer(symbol: string, trailer: char)
    ensures NormaliseTicker(symbol + [trailer]) == DotsToDashes(symbol)
  {
  }

  /** A symbol without dots comes out of its cell unchanged. */
  lemma NormalisePlainSymbol(symbol: string, trailer: char)
    requires '.' !in symbol
    ensures NormaliseTicker(symbol + [trailer]) == symbol
  {
    NormaliseDropsTrailer(symbol, trailer);
  }

  /** Why scraping the table can fail. */
  datatype ScrapeError =
    | TableNotFound     // the page has no sortable table
    | RowWithoutCells   // a row after the header has no data cell

  /** Header of the saved list: the column name later reads look up. */
  const Header: string := "Ticker"

  /** Normalised first cells of the given table rows, in order. */
  function FirstCells(rows: seq<seq<string>>): (r: Result<seq<string>, ScrapeError>)
    ensures r.Ok? <==> forall i :: 0 <= i < |rows| ==> |rows[i]| > 0
    ensures r.Ok? ==> |r.value| == |rows|
    ensures r.Ok? ==> forall i :: 0 <= i < |rows| ==> r.value[i] == NormaliseTicker(rows[i][0])
    ensures r.Err? ==> r.error == RowWithoutCells
  {
    if |rows| == 0 then Ok([])
    else
      match FirstCells(rows[..|rows| - 1])
      case Err(e) => Err(e)
      case Ok(front) =>
        var row := rows[|rows| - 1];
        if |row| == 0 then Err(RowWithoutCells)
        else Ok(front + [NormaliseTicker(row[0])])
  }

  /** The list written by the S&P 500 scraper: the header, then one
      normalised ticker per table row after the first (the first row holds
      the column titles), in table order. `table` is the cell texts of each
      row, or None when the page has no such table. */
  function ScrapeTickers(table: Option<seq<seq<string>>>): (r: Result<seq<string>, ScrapeError>)
    ensures r.Err? <==> table.None? || exists i :: 1 <= i < |table.value| && |table.value[i]| == 0
    ensures table.None? ==> r == Err(TableNotFound)
    // a table that exists fails only on a row without cells
    ensures table.Some? && r.Err? ==> r.error == RowWithoutCells
    ensures r.Ok? ==> |r.value| >= 1 && r.value[0] == Header
    ensures r.Ok? ==> |r.value| == if |table.value| == 0 then 1 else |table.value|
    ensures r.Ok? ==> forall i :: 1 <= i < |table.value| ==> r.value[i] == NormaliseTicker(table.value[i][0])
    ensures r.Ok? ==> forall i :: 1 <= i < |r.value| ==> '.' !in r.value[i]
  {
    match table
    case None => Err(TableNotFound)
    case Some(rows) =>
      var body := if |rows| == 0 then [] else rows[1..];
      match FirstCells(body)
      case Err(e) => Err(e)
      case Ok(tickers) => Ok([Header] + tickers)
  }
}
