/** The ingestion pipeline of src/web_scraping.py: the query URL builder, the
    `--` sentinel codec, the table extractor and the season/page orchestrator.
    A rendered page is the list of its row groups, each the list of its
    stripped cell texts; the browser, the document store and the SQL table are
    replaced by a map from (season, page) to rendered page and the `Stores` object below. */
module WebScraping {
  import opened Wrappers
  import opened PyBuiltins

  /** A Python value stored in a row dict. */
  datatype Value = Null | IntV(i: int) | FloatV(x: real) | StrV(s: string)

  /** A key of a row dict: the 25 keys the extractor assigns, and any other
      key a caller's template may carry. */
  datatype Key =
    | Team | Game | Gp | Wins | Losses | Ties | OtLosses | Points | PointPercent
    | RegWins | RegOtWins | SoWins | Gf | Ga | GfPerGp | GaPerGp | PpPercent | PkPercent
    | PpNetPercent | PkNetPercent | SfPerGp | SaPerGp | FoWinPercent | Season | Page
    | Other(name: string)

  /** A row is a Python dict from key to value. */
  type Row = map<Key, Value>

  /** The exceptions the pipeline can raise; none of them is caught. */
  datatype Error =
    | IndexError(index: int)     // `values[i]` past the end of a row
    | ValueError(text: string)   // `int(text)` or `float(text)` rejected the text
    | AttributeError             // no `-totalPages` span: `None.text`
    | FetchError(season: int, page: int)  // the browser could not render `make_url(season, page)`

  /** The two type constructors handed to `convert_double_dash`. */
  datatype Ctor = IntCtor | FloatCtor

  // ---------------------------------------------------------------------
  // URL builder (make_url)

  /** A piece of an f-string: literal text, or an interpolated integer. */
  datatype Piece = Chars(text: string) | Field(n: int)

  /** The text one piece renders to; an integer renders as `str(n)`. */
  function PieceText(piece: Piece): string
  {
    match piece
    case Chars(t) => t
    case Field(n) => ShowInt(n)
  }

  /** The text an f-string's pieces render to. */
  function Render(pieces: seq<Piece>): string
  {
    if pieces == [] then "" else PieceText(pieces[0]) + Render(pieces[1..])
  }

  // The literal text of `make_url`, fragment by fragment.
  const StatsBase := "http://www.nhl.com/stats/teams?aggregate=0&"
  const SeasonFromKey := "reportType=game&seasonFrom="
  const SeasonToKey := "seasonTo="
  const GameFilter := "&dateFromSeason&gameType=2"
  const PageKey := "&filter=gamesPlayed,gte,1&sort=points,wins&page="
  const PageSize := "pageSize=100"

  /** The stats query for one season and one zero-based result page: two
      plain literals around three f-strings, joined by `+`. */
  function MakeUrl(year: int, page: int := 0): string
  {
    StatsBase
    + Render([Chars(SeasonFromKey), Field(year), Field(year + 1), Chars("&")])
    + Render([Chars(SeasonToKey), Field(year), Field(year + 1), Chars(GameFilter)])
    + Render([Chars(PageKey), Field(page), Chars("&")])
    + PageSize
  }

  // ---------------------------------------------------------------------
  // Sentinel codec (convert_double_dash)

  /** `int(text)` or `float(text)`. */
  function Construct(ctor: Ctor, text: string): Result<Value, Error>
  {
    match ctor
    case IntCtor => (match ParseInt(text) case Some(n) => Ok(IntV(n)) case None => Err(ValueError(text)))
    case FloatCtor => (match ParseFloat(text) case Some(x) => Ok(FloatV(x)) case None => Err(ValueError(text)))
  }

  /** The text the site shows in a cell that has no value. */
  const Sentinel := "--"

  /** `None` for the site's `--` marker, otherwise the constructor applied to the text. */
  function ConvertDoubleDash(cell: string, ctor: Ctor): Result<Value, Error>
  {
    if cell == Sentinel then Ok(Null) else Construct(ctor, cell)
  }

  // ---------------------------------------------------------------------
  // Table extractor (extract_page_table)

  /** `values[i]`, which raises IndexError past the end of the row. */
  function Cell(cells: seq<string>, i: nat): Result<string, Error>
  {
    if i < |cells| then Ok(cells[i]) else Err(IndexError(i))
  }

  /** How a column's cell text becomes its value: copied as text, parsed by
      the constructor, or passed through `convert_double_dash` first. */
  datatype Kind = Text | Number(ctor: Ctor) | Nullable(ctor: Ctor)

  /** One assignment `new_row[key] = ...(values[index]...)` of the extractor. */
  datatype Column = Column(key: Key, index: nat, kind: Kind)

  /** The extractor's 23 column assignments are made for cells 1 to 23. */
  const LastColumn := 23

  /** The assignment that reads cell `i`; the source makes them in this order. */
  function ColumnAt(i: nat): (c: Column)
    requires 1 <= i <= LastColumn
    ensures c.index == i
  {
    match i
    case 1 => Column(Team, 1, Text)
    case 2 => Column(Game, 2, Text)
    case 3 => Column(Gp, 3, Number(IntCtor))
    case 4 => Column(Wins, 4, Number(IntCtor))
    case 5 => Column(Losses, 5, Number(IntCtor))
    case 6 => Column(Ties, 6, Nullable(IntCtor))
    case 7 => Column(OtLosses, 7, Number(IntCtor))
    case 8 => Column(Points, 8, Number(IntCtor))
    case 9 => Column(PointPercent, 9, Number(FloatCtor))
    case 10 => Column(RegWins, 10, Number(IntCtor))
    case 11 => Column(RegOtWins, 11, Number(IntCtor))
    case 12 => Column(SoWins, 12, Number(IntCtor))
    case 13 => Column(Gf, 13, Number(IntCtor))
    case 14 => Column(Ga, 14, Number(IntCtor))
    case 15 => Column(GfPerGp, 15, Nullable(FloatCtor))
    case 16 => Column(GaPerGp, 16, Nullable(FloatCtor))
    case 17 => Column(PpPercent, 17, Nullable(FloatCtor))
    case 18 => Column(PkPercent, 18, Nullable(FloatCtor))
    case 19 => Column(PpNetPercent, 19, Nullable(FloatCtor))
    case 20 => Column(PkNetPercent, 20, Nullable(FloatCtor))
    case 21 => Column(SfPerGp, 21, Nullable(FloatCtor))
    case 22 => Column(SaPerGp, 22, Nullable(FloatCtor))
    case 23 => Column(FoWinPercent, 23, Number(FloatCtor))
  }

  /** The value one column takes from its cell text. */
  function Decode(kind: Kind, text: string): Result<Value, Error>
  {
    match kind
    case Text => Ok(StrV(text))
    case Number(ctor) => Construct(ctor, text)
    case Nullable(ctor) => ConvertDoubleDash(text, ctor)
  }

  /** `values[c.index]` followed by the column's conversion. */
  function ColumnValue(cells: seq<string>, c: Column): Result<Value, Error>
  {
    var text :- Cell(cells, c.index);
    Decode(c.kind, text)
  }

  /** The assignments for cells `i .. 23` applied one after another to `row`; the first
      one that raises ends the row with its exception. */
  function FillColumns(row: Row, cells: seq<string>, i: nat): Result<Row, Error>
    requires 1 <= i <= LastColumn + 1
    decreases LastColumn + 1 - i, 1
  {
    if i > LastColumn then Ok(row) else FillColumn(row, cells, i)
  }

  /** The assignment for cell `i`, then those after it. */
  function FillColumn(row: Row, cells: seq<string>, i: nat): Result<Row, Error>
    requires 1 <= i <= LastColumn
    decreases LastColumn + 1 - i, 0
  {
    var c := ColumnAt(i);
    var v :- ColumnValue(cells, c);
    FillColumns(row[c.key := v], cells, i + 1)
  }

  /** One table row: a copy of the template, the 23 columns assigned in the
      source's order, then `season` and `page`. */
  function ParseRow(template: Row, cells: seq<string>, season: int, page: int): Result<Row, Error>
  {
    var row :- FillColumns(template, cells, 1);
    Ok(row[Season := IntV(season)][Page := IntV(page)])
  }

  /** The escaped non-breaking space the site leaves in an empty cell. */
  const Nbsp := "&nbsp;"

  /** A row whose first cell is empty or the literal `&nbsp;` is filler: the
      table's real rows end there. */
  predicate IsFiller(first: string)
  {
    first == Nbsp || first == ""
  }

  /** A rendered page, as parsed: its row groups (each the stripped texts of its cells),
      the text of the `-totalPages` span if there is one, and the prettified
      markup that is archived. */
  datatype Soup = Soup(groups: seq<seq<string>>, totalPages: Option<string>, pretty: string)

  /** The rows `extract_page_table` returns for the row groups `groups`, or the
      exception it raises. */
  function ExtractRows(groups: seq<seq<string>>, season: int, page: int, template: Row): Result<seq<Row>, Error>
  {
    if groups == [] then Ok([])
    else
      var first :- Cell(groups[0], 0);
      if IsFiller(first) then Ok([])
      else
        var row :- ParseRow(template, groups[0], season, page);
        var rest :- ExtractRows(groups[1..], season, page, template);
        Ok([row] + rest)
  }

  lemma PrefixedAssoc(acc: seq<Row>, row: Row, r: Result<seq<Row>, Error>)
    ensures Prefixed(acc, Prefixed([row], r)) == Prefixed(acc + [row], r)
  {
    if r.Ok? { assert acc + ([row] + r.value) == (acc + [row]) + r.value; }
  }

  /** One step of `ExtractRows` on a non-empty list of row groups. */
  lemma ExtractRowsUnfold(groups: seq<seq<string>>, season: int, page: int, template: Row)
    requires groups != []
    ensures |groups[0]| == 0 ==> ExtractRows(groups, season, page, template) == Err(IndexError(0))
    ensures |groups[0]| > 0 && IsFiller(groups[0][0]) ==> ExtractRows(groups, season, page, template) == Ok([])
    ensures |groups[0]| > 0 && !IsFiller(groups[0][0]) ==>
      ExtractRows(groups, season, page, template)
      == (match ParseRow(template, groups[0], season, page)
          case Err(e) => Err(e)
          case Ok(row) => Prefixed([row], ExtractRows(groups[1..], season, page, template)))
  {
  }

  /** `acc` followed by the rows of `r`, or the exception of `r`. */
  function Prefixed(acc: seq<Row>, r: Result<seq<Row>, Error>): Result<seq<Row>, Error>
  {
    if r.Ok? then Ok(acc + r.value) else r
  }

  /** The extractor's loop: walk the row groups in order, stop at the first
      filler row, and append one parsed row per real row group. */
  method ExtractPageTable(soup: Soup, season: int, page: int, template: Row)
    returns (allRows: Result<seq<Row>, Error>)
    ensures allRows == ExtractRows(soup.groups, season, page, template)
  {
    var rows := soup.groups;
    var acc: seq<Row> := [];
    var i := 0;
    assert rows[i..] == rows;
    ghost var whole := ExtractRows(rows, season, page, template);
    assert whole.Ok? ==> [] + whole.value == whole.value;
    while i < |rows|
      invariant 0 <= i <= |rows|
      invariant ExtractRows(rows, season, page, template)
             == Prefixed(acc, ExtractRows(rows[i..], season, page, template))
    {
      var values := rows[i];
      ExtractRowsUnfold(rows[i..], season, page, template);
      assert rows[i..][1..] == rows[i + 1..];
      if |values| == 0 {
        return Err(IndexError(0));
      }
      if values[0] == Nbsp || values[0] == "" {
        assert acc + [] == acc;
        break;
      }
      var newRow := ParseRow(template, values, season, page);
      if newRow.Err? {
        return Err(newRow.error);
      }
      PrefixedAssoc(acc, newRow.value, ExtractRows(rows[i + 1..], season, page, template));
      acc := acc + [newRow.value];
      i := i + 1;
    }
    if i == |rows| {
      assert rows[i..] == [] && acc + [] == acc;
    }
    return Ok(acc);
  }

  // ---------------------------------------------------------------------
  // Orchestrator (get_nhl_data)

  /** `int(soup.find('span', class_='-totalPages').text.strip())`. */
  function NumPages(soup: Soup): Result<int, Error>
  {
    match soup.totalPages
    case None => Err(AttributeError)
    case Some(text) =>
      match ParseInt(text)
      case Some(n) => Ok(n)
      case None => Err(ValueError(text))
  }

  /** The document `insert_one` stores for one page. */
  datatype ArchiveDoc = ArchiveDoc(season: int, page: int, soup: string)

  /** The observable effects of a run, in order. `Fetched(s, p)` is
      `get_soup(make_url(s, p))`: the browser sent to the query for page `p`
      of season `s`. */
  datatype Event =
    | Fetched(season: int, page: int)
    | Inserted(doc: ArchiveDoc)
    | Appended(rows: seq<Row>)
    | Slept(seconds: int)

  /** The effects of (part of) a run: its events, the documents it archived,
      the rows it appended to `games`, and the exception that ended it, if any. */
  datatype Trace = Trace(events: seq<Event>, docs: seq<ArchiveDoc>, rows: seq<Row>, error: Option<Error>)

  const Done := Trace([], [], [], None)

  /** What the browser renders, by the season and page of the query URL.
      A browser keyed by URL text is the instance `(s, p) := b[MakeUrl(s, p)]`,
      so whatever holds for every `Web` holds for it. */
  type Web = map<(int, int), Soup>

  /** `browser.get(make_url(season, page))` followed by
      `BeautifulSoup(browser.page_source)`; a page the browser cannot load raises. */
  function Fetch(web: Web, season: int, page: int): Result<Soup, Error>
  {
    if (season, page) in web then Ok(web[(season, page)]) else Err(FetchError(season, page))
  }

  /** `t` followed by one iteration of the page loop: the fetch (page 0
      reuses the season's first page instead), the archived document, the
      appended rows and the pause, as far as no exception intervenes. */
  function PageStep(t: Trace, web: Web, template: Row, season: int, first: Soup, p: nat): Trace
  {
    var t1 := if p > 0 then t.(events := t.events + [Fetched(season, p)]) else t;
    var got := if p > 0 then Fetch(web, season, p) else Ok(first);
    match got
    case Err(e) => t1.(error := Some(e))
    case Ok(soup) =>
      var doc := ArchiveDoc(season, p, soup.pretty);
      var t2 := t1.(events := t1.events + [Inserted(doc)], docs := t1.docs + [doc]);
      match ExtractRows(soup.groups, season, p, template)
      case Err(e) => t2.(error := Some(e))
      case Ok(rows) =>
        var t3 := t2.(events := t2.events + [Appended(rows)], rows := t2.rows + rows);
        t3.(events := t3.events + [Slept(5)])
  }

  /** `n` if it is positive, otherwise 0: the length of `range(n)`. */
  function RangeLength(n: int): nat
  {
    if n > 0 then n else 0
  }

  /** `t` followed by pages `p .. n-1` of the page loop, up to the first exception. */
  function PageLoop(t: Trace, web: Web, template: Row, season: int, first: Soup, p: nat, n: int): Trace
    decreases RangeLength(n - p), 1
  {
    if p >= n then t else PageFrom(t, web, template, season, first, p, n)
  }

  /** `t` followed by page `p` and, unless it raised, the pages after it. */
  function PageFrom(t: Trace, web: Web, template: Row, season: int, first: Soup, p: nat, n: int): Trace
    requires p < n
    decreases RangeLength(n - p), 0
  {
    var t1 := PageStep(t, web, template, season, first, p);
    if t1.error.Some? then t1 else PageLoop(t1, web, template, season, first, p + 1, n)
  }

  /** `t` followed by one iteration of the season loop: the fetch of page 0,
      the page count and the page loop over `range(count)`. */
  function SeasonStep(t: Trace, web: Web, template: Row, season: int): Trace
  {
    var t1 := t.(events := t.events + [Fetched(season, 0)]);
    match Fetch(web, season, 0)
    case Err(e) => t1.(error := Some(e))
    case Ok(first) =>
      match NumPages(first)
      case Err(e) => t1.(error := Some(e))
      case Ok(n) => PageLoop(t1, web, template, season, first, 0, n)
  }

  /** `t` followed by `k` iterations of the season loop from `season` on, up to
      the first exception. */
  function Seasons(t: Trace, web: Web, template: Row, season: int, k: nat): Trace
    decreases k
  {
    if k == 0 then t
    else
      var t1 := SeasonStep(t, web, template, season);
      if t1.error.Some? then t1 else Seasons(t1, web, template, season + 1, k - 1)
  }

  /** The number of seasons in `range(start, last + 1)`, where a missing end
      season means the start season. */
  function SeasonCount(start: int, end: Option<int>): nat
  {
    RangeLength(end.GetOr(start) + 1 - start)
  }

  /** `t` followed by a whole run. */
  function RunFrom(t: Trace, web: Web, template: Row, start: int, end: Option<int>): Trace
  {
    Seasons(t, web, template, start, SeasonCount(start, end))
  }

  /** The effects of a whole run against empty stores. */
  function Run(web: Web, template: Row, start: int, end: Option<int> := None): Trace
  {
    RunFrom(Done, web, template, start, end)
  }

  /** The two stores the run writes to, the MongoDB collection of raw pages
      and the `games` table, with a log of every effect in order (fetches and
      pauses included). */
  class Stores {
    var archive: seq<ArchiveDoc>
    var games: seq<Row>
    ghost var events: seq<Event>

    /** What the stores and the log hold, closed by the exception `error` that
        ended the run, if any. */
    ghost function After(error: Option<Error>): Trace
      reads this
    {
      Trace(events, archive, games, error)
    }

    constructor ()
      ensures After(None) == Done
    {
      archive, games, events := [], [], [];
    }

    /** Logs that the browser was sent to the query for `page` of `season`. */
    ghost method NoteFetch(season: int, page: int)
      modifies this
      ensures After(None) == old(After(None)).(events := old(events) + [Fetched(season, page)])
    {
      events := events + [Fetched(season, page)];
    }

    /** `mongo_coll.insert_one(doc)`. */
    method InsertOne(doc: ArchiveDoc)
      modifies this
      ensures After(None) == old(After(None)).(events := old(events) + [Inserted(doc)], docs := old(archive) + [doc])
    {
      archive := archive + [doc];
      events := events + [Inserted(doc)];
    }

    /** `pd.DataFrame(rows).to_sql('games', ..., if_exists='append')`. */
    method AppendRows(rows: seq<Row>)
      modifies this
      ensures After(None) == old(After(None)).(events := old(events) + [Appended(rows)], rows := old(games) + rows)
    {
      games := games + rows;
      events := events + [Appended(rows)];
    }

    /** Logs `time.sleep(seconds)`. */
    ghost method Sleep(seconds: int)
      modifies this
      ensures After(None) == old(After(None)).(events := old(events) + [Slept(seconds)])
    {
      events := events + [Slept(seconds)];
    }
  }

  /** The body of the page loop. */
  method ScrapePage(stores: Stores, web: Web, template: Row, season: int, first: Soup, page: nat)
    returns (error: Option<Error>)
    modifies stores
    ensures stores.After(error) == PageStep(old(stores.After(None)), web, template, season, first, page)
  {
    var soup := first;
    if page > 0 {
      stores.NoteFetch(season, page);
      var r := Fetch(web, season, page);
      if r.Err? {
        return Some(r.error);
      }
      soup := r.value;
    }
    stores.InsertOne(ArchiveDoc(season, page, soup.pretty));
    var allRows := ExtractPageTable(soup, season, page, template);
    if allRows.Err? {
      return Some(allRows.error);
    }
    stores.AppendRows(allRows.value);
    stores.Sleep(5);
    return None;
  }

  /** The body of the season loop: the fetch of page 0, the page count and
      the page loop. */
  method ScrapeSeason(stores: Stores, web: Web, template: Row, season: int) returns (error: Option<Error>)
    modifies stores
    ensures stores.After(error) == SeasonStep(old(stores.After(None)), web, template, season)
  {
    stores.NoteFetch(season, 0);
    var got := Fetch(web, season, 0);
    if got.Err? {
      return Some(got.error);
    }
    var first := got.value;
    var numPages := NumPages(first);
    if numPages.Err? {
      return Some(numPages.error);
    }
    var n := numPages.value;
    ghost var atPageZero := stores.After(None);
    var page := 0;
    while page < n
      invariant PageLoop(atPageZero, web, template, season, first, 0, n)
             == PageLoop(stores.After(None), web, template, season, first, page, n)
    {
      error := ScrapePage(stores, web, template, season, first, page);
      if error.Some? {
        return;
      }
      page := page + 1;
    }
    return None;
  }

  /** `get_nhl_data`: the season loop over `range(start_season, end_season + 1)`,
      with a missing end season meaning the start season. Nothing is caught:
      the first exception ends the run and is returned. */
  method GetNhlData(stores: Stores, web: Web, template: Row, startSeason: int, endSeason: Option<int> := None)
    returns (error: Option<Error>)
    modifies stores
    ensures stores.After(error) == RunFrom(old(stores.After(None)), web, template, startSeason, endSeason)
  {
    var last := if endSeason.None? then startSeason else endSeason.value;
    var season := startSeason;
    ghost var k := SeasonCount(startSeason, endSeason);
    while season < last + 1
      invariant k == RangeLength(last + 1 - season)
      invariant RunFrom(old(stores.After(None)), web, template, startSeason, endSeason)
             == Seasons(stores.After(None), web, template, season, k)
    {
      error := ScrapeSeason(stores, web, template, season);
      if error.Some? {
        return;
      }
      season, k := season + 1, k - 1;
    }
    return None;
  }
}
