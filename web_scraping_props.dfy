/** What the scraper promises, stated over the model in WebScraping: the URL
    builder renders its fragments in order and tells pages apart, the `--`
    codec maps exactly the sentinel to `None`, the extractor fills each of its
    23 columns from the right cell, stops at the first filler row and raises
    the first exception a cell causes, and a run only appends to its stores,
    archives every page of a season once, in season and page order, each as
    the browser rendered it, logs each insert right after its page's fetch
    and, unless extracting that page raised, closes it with the append of
    the rows extracted from the page and the pause, keeps `games` equal to
    the rows the log appended, and stamps every stored row with a season of
    the requested range. */
module WebScrapingProps {
  import opened Wrappers
  import opened PyBuiltins
  import opened WebScraping

  // ---------------------------------------------------------------------
  // make_url

  /** Rendering distributes over concatenation of f-string pieces. */
  lemma {:induction false} RenderAppend(a: seq<Piece>, b: seq<Piece>)
    ensures Render(a + b) == Render(a) + Render(b)
  {
    if a == [] {
      assert a + b == b;
    } else {
      assert (a + b)[1..] == a[1..] + b;
      RenderAppend(a[1..], b);
    }
  }

  lemma RenderThree(x: Piece, y: Piece, z: Piece)
    ensures Render([x, y, z]) == PieceText(x) + (PieceText(y) + (PieceText(z) + ""))
  {
    assert Render([z]) == PieceText(z) + "" by { assert [z][1..] == []; }
    assert Render([y, z]) == PieceText(y) + Render([z]) by { assert [y, z][1..] == [z]; }
    assert [x, y, z][1..] == [y, z];
  }

  lemma RenderFour(w: Piece, x: Piece, y: Piece, z: Piece)
    ensures Render([w, x, y, z]) == PieceText(w) + (PieceText(x) + (PieceText(y) + (PieceText(z) + "")))
  {
    assert [w, x, y, z][1..] == [x, y, z];
    RenderThree(x, y, z);
  }

  /** The concatenation in `make_url`, regrouped from left to right. */
  lemma Regroup(base: string, k1: string, y0: string, y1: string, amp: string, k2: string,
                gf: string, pk: string, pg: string, ps: string)
    ensures (((base + (k1 + (y0 + (y1 + (amp + ""))))) + (k2 + (y0 + (y1 + (gf + ""))))) + (pk + (pg + (amp + "")))) + ps
         == base + k1 + y0 + y1 + amp + k2 + y0 + y1 + gf + pk + pg + (amp + ps)
  {
  }

  /** The query up to `page=`, spelled out piece by piece. */
  function QueryHead(year: int): string
  {
    StatsBase + SeasonFromKey + ShowInt(year) + ShowInt(year + 1) + "&"
    + SeasonToKey + ShowInt(year) + ShowInt(year + 1) + GameFilter + PageKey
  }

  /** What follows the page number in every query. */
  const QueryTail := "&" + PageSize

  /** The URL is the fixed head for the season, the decimal page number and the fixed tail. */
  lemma MakeUrlSpelled(year: int, page: int)
    ensures MakeUrl(year, page) == QueryHead(year) + ShowInt(page) + QueryTail
  {
    RenderFour(Chars(SeasonFromKey), Field(year), Field(year + 1), Chars("&"));
    RenderFour(Chars(SeasonToKey), Field(year), Field(year + 1), Chars(GameFilter));
    RenderThree(Chars(PageKey), Field(page), Chars("&"));
    Regroup(StatsBase, SeasonFromKey, ShowInt(year), ShowInt(year + 1), "&", SeasonToKey,
            GameFilter, PageKey, ShowInt(page), PageSize);
  }

  /** Two pages of one season have the same URL exactly when they are the
      same page, so no page is requested in place of another. */
  lemma MakeUrlPageInjective(year: int, p: int, q: int)
    ensures MakeUrl(year, p) == MakeUrl(year, q) <==> p == q
  {
    if MakeUrl(year, p) == MakeUrl(year, q) {
      MakeUrlSpelled(year, p);
      MakeUrlSpelled(year, q);
      var head := QueryHead(year);
      var u := MakeUrl(year, p);
      assert |ShowInt(p)| == |ShowInt(q)|;
      assert ShowInt(p) == u[|head|..|u| - |QueryTail|];
      assert ShowInt(q) == u[|head|..|u| - |QueryTail|];
      ShowIntInjective(p, q);
    }
  }

  /** The page number can be read back from the URL: the text between the
      season's head and the tail parses to it. */
  lemma MakeUrlPageReadBack(year: int, page: int)
    ensures var u := MakeUrl(year, page);
      |QueryHead(year)| + |QueryTail| <= |u|
      && u[..|QueryHead(year)|] == QueryHead(year)
      && ParseInt(u[|QueryHead(year)|..|u| - |QueryTail|]) == Some(page)
  {
    MakeUrlSpelled(year, page);
    var u := MakeUrl(year, page);
    assert u[|QueryHead(year)|..|u| - |QueryTail|] == ShowInt(page);
    ParseShowInt(page);
  }

  // ---------------------------------------------------------------------
  // convert_double_dash

  /** `int` and `float` both reject the sentinel, so a column that is not
      passed through `convert_double_dash` raises on it. */
  lemma ConstructRejectsSentinel(ctor: Ctor)
    ensures Construct(ctor, Sentinel) == Err(ValueError(Sentinel))
  {
    SentinelIsNotANumber();
  }

  /** The sentinel is the only text mapped to `None`; on every other text the
      codec is the bare constructor, and on the sentinel it differs from it. */
  lemma ConvertDoubleDashNull(cell: string, ctor: Ctor)
    ensures ConvertDoubleDash(cell, ctor) == Ok(Null) <==> cell == Sentinel
    ensures ConvertDoubleDash(cell, ctor) == Construct(ctor, cell) <==> cell != Sentinel
  {
    if cell == Sentinel {
      ConstructRejectsSentinel(ctor);
    }
  }

  /** A rendered integer is never the sentinel and reads back as itself
      through either constructor. */
  lemma ConvertDoubleDashShowInt(n: int)
    ensures ConvertDoubleDash(ShowInt(n), IntCtor) == Ok(IntV(n))
    ensures ConvertDoubleDash(ShowInt(n), FloatCtor) == Ok(FloatV(n as real))
  {
    ParseShowInt(n);
    SentinelIsNotANumber();
    IntTextIsFloatText(ShowInt(n));
  }

  // ---------------------------------------------------------------------
  // The column table

  /** The cell a key is read from, 0 for the keys no column assigns. */
  function ColumnIndex(k: Key): nat
  {
    match k
    case Team => 1 case Game => 2 case Gp => 3 case Wins => 4 case Losses => 5
    case Ties => 6 case OtLosses => 7 case Points => 8 case PointPercent => 9
    case RegWins => 10 case RegOtWins => 11 case SoWins => 12 case Gf => 13
    case Ga => 14 case GfPerGp => 15 case GaPerGp => 16 case PpPercent => 17
    case PkPercent => 18 case PpNetPercent => 19 case PkNetPercent => 20
    case SfPerGp => 21 case SaPerGp => 22 case FoWinPercent => 23
    case Season => 0 case Page => 0 case Other(_) => 0
  }

  /** `ColumnIndex` inverts the column table. */
  lemma ColumnIndexOfColumnAt(i: nat)
    requires 1 <= i <= LastColumn
    ensures ColumnIndex(ColumnAt(i).key) == i
  {
  }

  /** The 23 assignments write 23 different keys, none of them `season` or `page`. */
  lemma ColumnKeysDistinct(i: nat, j: nat)
    requires 1 <= i <= LastColumn && 1 <= j <= LastColumn
    ensures ColumnAt(i).key == ColumnAt(j).key <==> i == j
    ensures ColumnAt(i).key != Season && ColumnAt(i).key != Page
  {
    ColumnIndexOfColumnAt(i);
    ColumnIndexOfColumnAt(j);
  }

  // ---------------------------------------------------------------------
  // One row

  /** Filling columns `i ..` succeeds when each of those columns converts its cell. */
  lemma {:induction false} FillColumnsComplete(row: Row, cells: seq<string>, i: nat)
    requires 1 <= i <= LastColumn + 1
    requires forall j :: i <= j <= LastColumn ==> ColumnValue(cells, ColumnAt(j)).Ok?
    ensures FillColumns(row, cells, i).Ok?
    decreases LastColumn + 1 - i
  {
    if i <= LastColumn {
      var c := ColumnAt(i);
      FillColumnsComplete(row[c.key := ColumnValue(cells, c).value], cells, i + 1);
    }
  }

  /** Filling columns `i ..` leaves a key none of them assigns as it was. */
  lemma {:induction false} FillColumnsKeeps(row: Row, cells: seq<string>, i: nat, r: Row, k: Key)
    requires 1 <= i <= LastColumn + 1
    requires FillColumns(row, cells, i) == Ok(r)
    requires ColumnIndex(k) < i
    ensures k in r <==> k in row
    ensures k in row ==> r[k] == row[k]
    decreases LastColumn + 1 - i
  {
    if i <= LastColumn {
      var c := ColumnAt(i);
      ColumnIndexOfColumnAt(i);
      FillColumnsKeeps(row[c.key := ColumnValue(cells, c).value], cells, i + 1, r, k);
    }
  }

  /** A filled row holds, under the key of column `j`, that column's converted cell. */
  lemma {:induction false} FillColumnsValue(row: Row, cells: seq<string>, i: nat, r: Row, j: nat)
    requires 1 <= i <= j <= LastColumn
    requires FillColumns(row, cells, i) == Ok(r)
    ensures ColumnAt(j).key in r && ColumnValue(cells, ColumnAt(j)) == Ok(r[ColumnAt(j).key])
    decreases j - i
  {
    var c := ColumnAt(i);
    var next := row[c.key := ColumnValue(cells, c).value];
    if i == j {
      ColumnIndexOfColumnAt(i);
      FillColumnsKeeps(next, cells, i + 1, r, c.key);
    } else {
      FillColumnsValue(next, cells, i + 1, r, j);
    }
  }

  /** A fill whose columns before `j` convert and whose column `j` raises
      raises that column's exception. */
  lemma {:induction false} FillColumnsError(row: Row, cells: seq<string>, i: nat, j: nat)
    requires 1 <= i <= j <= LastColumn
    requires forall l :: i <= l < j ==> ColumnValue(cells, ColumnAt(l)).Ok?
    requires ColumnValue(cells, ColumnAt(j)).Err?
    ensures FillColumns(row, cells, i) == Err(ColumnValue(cells, ColumnAt(j)).error)
    decreases j - i
  {
    if i < j {
      var c := ColumnAt(i);
      assert ColumnValue(cells, c).Ok?;
      FillColumnsError(row[c.key := ColumnValue(cells, c).value], cells, i + 1, j);
    }
  }

  /** A row parses exactly when it has the 24 cells `values[0..23]` and each
      of the 23 columns converts its cell. */
  lemma ParseRowOk(template: Row, cells: seq<string>, season: int, page: int)
    ensures ParseRow(template, cells, season, page).Ok?
        <==> |cells| > LastColumn
             && forall j :: 1 <= j <= LastColumn ==> Decode(ColumnAt(j).kind, cells[j]).Ok?
  {
    if FillColumns(template, cells, 1).Ok? {
      var filled := FillColumns(template, cells, 1).value;
      FillColumnsValue(template, cells, 1, filled, LastColumn);
      forall j | 1 <= j <= LastColumn
        ensures Decode(ColumnAt(j).kind, cells[j]).Ok?
      {
        FillColumnsValue(template, cells, 1, filled, j);
      }
    } else if |cells| > LastColumn {
      if forall j :: 1 <= j <= LastColumn ==> Decode(ColumnAt(j).kind, cells[j]).Ok? {
        FillColumnsComplete(template, cells, 1);
      }
    }
  }

  /** A parsed row has all 24 cells and carries `season` and `page`, stamped last. */
  lemma ParseRowStamps(template: Row, cells: seq<string>, season: int, page: int, r: Row)
    requires ParseRow(template, cells, season, page) == Ok(r)
    ensures |cells| > LastColumn
    ensures Season in r && r[Season] == IntV(season) && Page in r && r[Page] == IntV(page)
  {
    ParseRowOk(template, cells, season, page);
  }

  /** A parsed row holds, under the key of column `j`, cell `j` as that column converts it. */
  lemma ParseRowColumn(template: Row, cells: seq<string>, season: int, page: int, r: Row, j: nat)
    requires ParseRow(template, cells, season, page) == Ok(r)
    requires 1 <= j <= LastColumn
    ensures j < |cells| && ColumnAt(j).key in r && Decode(ColumnAt(j).kind, cells[j]) == Ok(r[ColumnAt(j).key])
  {
    var filled := FillColumns(template, cells, 1).value;
    FillColumnsValue(template, cells, 1, filled, j);
    ColumnKeysDistinct(j, j);
  }

  /** A parsed row keeps the template's entry under every key the extractor does not assign. */
  lemma ParseRowKeeps(template: Row, cells: seq<string>, season: int, page: int, r: Row, k: Key)
    requires ParseRow(template, cells, season, page) == Ok(r)
    requires ColumnIndex(k) == 0 && k != Season && k != Page
    ensures k in r <==> k in template
    ensures k in template ==> r[k] == template[k]
  {
    FillColumnsKeeps(template, cells, 1, FillColumns(template, cells, 1).value, k);
  }

  /** A cell is stored as `None` exactly when its column goes through
      `convert_double_dash` and the cell is the sentinel. */
  lemma ParseRowNulls(template: Row, cells: seq<string>, season: int, page: int, r: Row, j: nat)
    requires ParseRow(template, cells, season, page) == Ok(r)
    requires 1 <= j <= LastColumn
    ensures ColumnAt(j).key in r && j < |cells|
    ensures r[ColumnAt(j).key] == Null <==> ColumnAt(j).kind.Nullable? && cells[j] == Sentinel
  {
    ParseRowColumn(template, cells, season, page, r, j);
    match ColumnAt(j).kind
    case Text =>
    case Number(ctor) =>
    case Nullable(ctor) => ConvertDoubleDashNull(cells[j], ctor);
  }

  /** A row with fewer than 24 cells raises. */
  lemma ShortRowRaises(template: Row, cells: seq<string>, season: int, page: int)
    requires |cells| <= LastColumn
    ensures ParseRow(template, cells, season, page).Err?
  {
    ParseRowOk(template, cells, season, page);
  }

  /** The sentinel in a column that is not passed through
      `convert_double_dash` (`gp`, `point_percent`, ...) makes the row raise. */
  lemma StrictColumnRejectsSentinel(template: Row, cells: seq<string>, season: int, page: int, j: nat)
    requires 1 <= j <= LastColumn && j < |cells|
    requires ColumnAt(j).kind.Number? && cells[j] == Sentinel
    ensures ParseRow(template, cells, season, page).Err?
  {
    ParseRowOk(template, cells, season, page);
    ConstructRejectsSentinel(ColumnAt(j).kind.ctor);
  }

  /** A row raises the exception of its first failing column: the first
      missing cell (`IndexError`), or the first cell its constructor rejects. */
  lemma ParseRowError(template: Row, cells: seq<string>, season: int, page: int, j: nat)
    requires 1 <= j <= LastColumn
    requires forall l :: 1 <= l < j ==> ColumnValue(cells, ColumnAt(l)).Ok?
    requires ColumnValue(cells, ColumnAt(j)).Err?
    ensures ParseRow(template, cells, season, page) == Err(ColumnValue(cells, ColumnAt(j)).error)
  {
    FillColumnsError(template, cells, 1, j);
  }

  // ---------------------------------------------------------------------
  // The table of one page

  /** A row group the extractor parses: its first cell is there and is not filler. */
  predicate RealRow(cells: seq<string>)
  {
    |cells| > 0 && !IsFiller(cells[0])
  }

  /** Row `i` of a table that does not raise is the parsed row group `i`,
      which is a real row. */
  lemma {:induction false} ExtractRowsRow(groups: seq<seq<string>>, season: int, page: int, template: Row, rows: seq<Row>, i: nat)
    requires ExtractRows(groups, season, page, template) == Ok(rows)
    requires i < |rows|
    ensures i < |groups| && RealRow(groups[i]) && ParseRow(template, groups[i], season, page) == Ok(rows[i])
    decreases i
  {
    assert groups != [];
    ExtractRowsUnfold(groups, season, page, template);
    var rest := ExtractRows(groups[1..], season, page, template).value;
    assert rows == [rows[0]] + rest;
    if i > 0 {
      ExtractRowsRow(groups[1..], season, page, template, rest, i - 1);
      assert groups[1..][i - 1] == groups[i] && rest[i - 1] == rows[i];
    }
  }

  /** A table that does not raise has at most one row per row group and ends
      at the end of the page or at a filler row. */
  lemma {:induction false} ExtractRowsEnd(groups: seq<seq<string>>, season: int, page: int, template: Row, rows: seq<Row>)
    requires ExtractRows(groups, season, page, template) == Ok(rows)
    ensures |rows| <= |groups|
    ensures |rows| < |groups| ==> |groups[|rows|]| > 0 && IsFiller(groups[|rows|][0])
    decreases |groups|
  {
    if groups != [] && !IsFiller(groups[0][0]) {
      var rest := ExtractRows(groups[1..], season, page, template).value;
      ExtractRowsEnd(groups[1..], season, page, template, rest);
      assert |rows| == 1 + |rest|;
      if |rows| < |groups| {
        assert groups[|rows|] == groups[1..][|rest|];
      }
    }
  }

  /** Conversely, row groups of that shape give a table of one row per real row group. */
  lemma {:induction false} ExtractRowsComplete(groups: seq<seq<string>>, season: int, page: int, template: Row, n: nat)
    requires n <= |groups|
    requires forall i :: 0 <= i < n ==> RealRow(groups[i]) && ParseRow(template, groups[i], season, page).Ok?
    requires n < |groups| ==> |groups[n]| > 0 && IsFiller(groups[n][0])
    ensures ExtractRows(groups, season, page, template).Ok?
    ensures |ExtractRows(groups, season, page, template).value| == n
    decreases n
  {
    if n > 0 {
      assert RealRow(groups[0]);
      forall i | 0 <= i < n - 1
        ensures RealRow(groups[1..][i]) && ParseRow(template, groups[1..][i], season, page).Ok?
      {
        assert groups[1..][i] == groups[i + 1];
      }
      ExtractRowsComplete(groups[1..], season, page, template, n - 1);
    }
  }

  /** A table raises at its first bad row group `n`: `IndexError(0)` if the
      group has no cells, or the exception of its row if that raises. */
  lemma {:induction false} ExtractRowsError(groups: seq<seq<string>>, season: int, page: int, template: Row, n: nat)
    requires n < |groups|
    requires forall i :: 0 <= i < n ==> RealRow(groups[i]) && ParseRow(template, groups[i], season, page).Ok?
    requires |groups[n]| == 0 || (RealRow(groups[n]) && ParseRow(template, groups[n], season, page).Err?)
    ensures ExtractRows(groups, season, page, template)
         == Err(if |groups[n]| == 0 then IndexError(0) else ParseRow(template, groups[n], season, page).error)
    decreases n
  {
    if n > 0 {
      assert RealRow(groups[0]);
      forall i | 0 <= i < n - 1
        ensures RealRow(groups[1..][i]) && ParseRow(template, groups[1..][i], season, page).Ok?
      {
        assert groups[1..][i] == groups[i + 1];
      }
      ExtractRowsError(groups[1..], season, page, template, n - 1);
    }
  }

  /** Every row of a page's table carries that page's season and page number. */
  lemma ExtractRowsStamped(groups: seq<seq<string>>, season: int, page: int, template: Row, rows: seq<Row>)
    requires ExtractRows(groups, season, page, template) == Ok(rows)
    ensures forall i :: 0 <= i < |rows| ==>
      Season in rows[i] && rows[i][Season] == IntV(season) && Page in rows[i] && rows[i][Page] == IntV(page)
  {
    forall i | 0 <= i < |rows|
      ensures Season in rows[i] && rows[i][Season] == IntV(season) && Page in rows[i] && rows[i][Page] == IntV(page)
    {
      ExtractRowsRow(groups, season, page, template, rows, i);
      ParseRowStamps(template, groups[i], season, page, rows[i]);
    }
  }

  // ---------------------------------------------------------------------
  // A run only appends to the stores

  /** `u` is `t` with more appended: no event, document or row of `t` is changed or removed. */
  predicate Extends(t: Trace, u: Trace)
  {
    t.events <= u.events && t.docs <= u.docs && t.rows <= u.rows
  }

  /** One page only appends to the stores. */
  lemma PageStepExtends(t: Trace, web: Web, template: Row, season: int, first: Soup, p: nat)
    ensures Extends(t, PageStep(t, web, template, season, first, p))
  {
  }

  /** The page loop only appends to the stores. */
  lemma {:induction false} PageLoopExtends(t: Trace, web: Web, template: Row, season: int, first: Soup, p: nat, n: int)
    ensures Extends(t, PageLoop(t, web, template, season, first, p, n))
    decreases RangeLength(n - p)
  {
    if p < n {
      var t1 := PageStep(t, web, template, season, first, p);
      PageStepExtends(t, web, template, season, first, p);
      if t1.error == None {
        PageLoopExtends(t1, web, template, season, first, p + 1, n);
      }
    }
  }

  /** One season only appends to the stores. */
  lemma SeasonStepExtends(t: Trace, web: Web, template: Row, season: int)
    ensures Extends(t, SeasonStep(t, web, template, season))
  {
    var t0 := t.(events := t.events + [Fetched(season, 0)]);
    if Fetch(web, season, 0).Ok? && NumPages(Fetch(web, season, 0).value).Ok? {
      PageLoopExtends(t0, web, template, season, Fetch(web, season, 0).value, 0, NumPages(Fetch(web, season, 0).value).value);
    }
  }

  /** The season loop only appends to the stores. */
  lemma {:induction false} SeasonsExtends(t: Trace, web: Web, template: Row, season: int, k: nat)
    ensures Extends(t, Seasons(t, web, template, season, k))
    decreases k
  {
    if k > 0 {
      var t1 := SeasonStep(t, web, template, season);
      SeasonStepExtends(t, web, template, season);
      if t1.error == None {
        SeasonsExtends(t1, web, template, season + 1, k - 1);
      }
    }
  }

  /** `get_nhl_data` on stores that already hold data keeps all of it:
      `insert_one` and `to_sql(..., if_exists='append')` only add. */
  lemma RunFromExtends(t: Trace, web: Web, template: Row, start: int, end: Option<int>)
    ensures Extends(t, RunFrom(t, web, template, start, end))
  {
    SeasonsExtends(t, web, template, start, SeasonCount(start, end));
  }

  // ---------------------------------------------------------------------
  // What a run archives and stores

  /** Page `p` of season `s` comes strictly before page `page` of `season`
      in the run's season-then-page order. */
  predicate Earlier(s: int, p: int, season: int, page: int)
  {
    s < season || (s == season && p < page)
  }

  /** Document `d` was archived before page `page` of season `season`. */
  predicate Precedes(d: ArchiveDoc, season: int, page: int)
  {
    Earlier(d.season, d.page, season, page)
  }

  /** Documents in strictly increasing (season, page) order: no page twice. */
  predicate InOrder(docs: seq<ArchiveDoc>)
  {
    forall i, j :: 0 <= i < j < |docs| ==> Precedes(docs[i], docs[j].season, docs[j].page)
  }

  /** The document holds the prettified markup the browser rendered for its season and page. */
  predicate Rendered(web: Web, d: ArchiveDoc)
  {
    (d.season, d.page) in web && web[(d.season, d.page)].pretty == d.soup
  }

  /** The archive of a run that is about to process page `page` of `season`,
      having started at season `lo`. */
  predicate Archived(web: Web, docs: seq<ArchiveDoc>, lo: int, season: int, page: int)
  {
    InOrder(docs)
    && forall i :: 0 <= i < |docs| ==>
         lo <= docs[i].season && 0 <= docs[i].page && Precedes(docs[i], season, page) && Rendered(web, docs[i])
  }

  /** Every row carries an integer season between `lo` and `hi`. */
  predicate Stamped(rows: seq<Row>, lo: int, hi: int)
  {
    forall i :: 0 <= i < |rows| ==>
      Season in rows[i] && rows[i][Season].IntV? && lo <= rows[i][Season].i <= hi
      && Page in rows[i] && rows[i][Page].IntV? && 0 <= rows[i][Page].i
  }

  /** Archiving page `page` of `season`, as rendered, after everything
      before it moves the archive on to the next page. */
  lemma ArchivedAppend(web: Web, docs: seq<ArchiveDoc>, lo: int, d: ArchiveDoc)
    requires lo <= d.season && 0 <= d.page && Rendered(web, d)
    requires Archived(web, docs, lo, d.season, d.page)
    ensures Archived(web, docs + [d], lo, d.season, d.page + 1)
  {
    var a := docs + [d];
    forall i, j | 0 <= i < j < |a|
      ensures Precedes(a[i], a[j].season, a[j].page)
    {
      if j == |docs| {
        assert a[i] == docs[i] && a[j] == d;
      } else {
        assert a[i] == docs[i] && a[j] == docs[j];
      }
    }
  }

  /** One page archives its own rendering after everything before it. */
  lemma PageStepArchives(t: Trace, web: Web, template: Row, season: int, first: Soup, p: nat, lo: int)
    requires Fetch(web, season, 0) == Ok(first)
    requires lo <= season
    requires Archived(web, t.docs, lo, season, p)
    ensures Archived(web, PageStep(t, web, template, season, first, p).docs, lo, season, p + 1)
  {
    var got := if p > 0 then Fetch(web, season, p) else Ok(first);
    if got.Ok? {
      var d := ArchiveDoc(season, p, got.value.pretty);
      assert PageStep(t, web, template, season, first, p).docs == t.docs + [d];
      ArchivedAppend(web, t.docs, lo, d);
    } else {
      assert PageStep(t, web, template, season, first, p).docs == t.docs;
    }
  }

  /** One page stores only rows stamped with its season. */
  lemma PageStepStamps(t: Trace, web: Web, template: Row, season: int, first: Soup, p: nat, lo: int)
    requires lo <= season
    requires Stamped(t.rows, lo, season)
    ensures Stamped(PageStep(t, web, template, season, first, p).rows, lo, season)
  {
    var got := if p > 0 then Fetch(web, season, p) else Ok(first);
    if got.Ok? {
      var rows := ExtractRows(got.value.groups, season, p, template);
      if rows.Ok? {
        ExtractRowsStamped(got.value.groups, season, p, template, rows.value);
        assert PageStep(t, web, template, season, first, p).rows == t.rows + rows.value;
      }
    }
  }

  /** The page loop keeps the archive in order and faithful, and moves it on to the next season. */
  lemma {:induction false} PageLoopKeeps(t: Trace, web: Web, template: Row, season: int, first: Soup, p: nat, n: int, lo: int)
    requires Fetch(web, season, 0) == Ok(first)
    requires lo <= season
    requires Archived(web, t.docs, lo, season, p) && Stamped(t.rows, lo, season)
    ensures var u := PageLoop(t, web, template, season, first, p, n);
      Archived(web, u.docs, lo, season + 1, 0) && Stamped(u.rows, lo, season)
    decreases RangeLength(n - p)
  {
    if p < n {
      var t1 := PageStep(t, web, template, season, first, p);
      PageStepArchives(t, web, template, season, first, p, lo);
      PageStepStamps(t, web, template, season, first, p, lo);
      if t1.error == None {
        PageLoopKeeps(t1, web, template, season, first, p + 1, n, lo);
      }
    }
  }

  /** The season loop keeps the archive in order and faithful, and stamps rows with the seasons it ran. */
  lemma SeasonStepKeeps(t: Trace, web: Web, template: Row, season: int, lo: int)
    requires lo <= season
    requires Archived(web, t.docs, lo, season, 0) && Stamped(t.rows, lo, season - 1)
    ensures var u := SeasonStep(t, web, template, season);
      Archived(web, u.docs, lo, season + 1, 0) && Stamped(u.rows, lo, season)
  {
    var t0 := t.(events := t.events + [Fetched(season, 0)]);
    if Fetch(web, season, 0).Ok? && NumPages(Fetch(web, season, 0).value).Ok? {
      PageLoopKeeps(t0, web, template, season, Fetch(web, season, 0).value, 0, NumPages(Fetch(web, season, 0).value).value, lo);
    }
  }

  /** The season loop keeps the archive in order and faithful, and stamps rows with the seasons it ran. */
  lemma {:induction false} SeasonsKeep(t: Trace, web: Web, template: Row, season: int, k: nat, lo: int)
    requires lo <= season
    requires Archived(web, t.docs, lo, season, 0) && Stamped(t.rows, lo, season - 1)
    ensures var u := Seasons(t, web, template, season, k);
      Archived(web, u.docs, lo, season + k, 0) && Stamped(u.rows, lo, season + k - 1)
    decreases k
  {
    if k > 0 {
      var t1 := SeasonStep(t, web, template, season);
      SeasonStepKeeps(t, web, template, season, lo);
      if t1.error == None {
        SeasonsKeep(t1, web, template, season + 1, k - 1, lo);
      }
    }
  }

  /** A whole run archives each page at most once, in season and page order,
      each as the browser rendered it, only for seasons in the requested
      range; and every row it stores carries a season of that range. */
  lemma RunArchive(web: Web, template: Row, start: int, end: Option<int>)
    ensures var u := Run(web, template, start, end);
      InOrder(u.docs)
      && (forall i :: 0 <= i < |u.docs| ==>
            start <= u.docs[i].season <= end.GetOr(start) && Rendered(web, u.docs[i]))
      && Stamped(u.rows, start, end.GetOr(start))
  {
    var k := SeasonCount(start, end);
    SeasonsKeep(Done, web, template, start, k, start);
  }

  // ---------------------------------------------------------------------
  // The order of effects

  /** `rows` are the rows extracted from the rendered page that `d` archives. */
  predicate PageRows(web: Web, template: Row, d: ArchiveDoc, rows: seq<Row>)
  {
    (d.season, d.page) in web
    && ExtractRows(web[(d.season, d.page)].groups, d.season, d.page, template) == Ok(rows)
  }

  /** Entry `i` of the log comes right after what it needs: an archive
      insert right after the fetch of its own page, an append of the rows
      extracted from the page just archived right after that insert, a pause
      right after an append. */
  predicate Follows(events: seq<Event>, i: nat, web: Web, template: Row)
    requires i < |events|
  {
    match events[i]
    case Fetched(_, _) => true
    case Inserted(d) => 0 < i && events[i - 1] == Fetched(d.season, d.page)
    case Appended(rows) => 0 < i && events[i - 1].Inserted? && PageRows(web, template, events[i - 1].doc, rows)
    case Slept(_) => 0 < i && events[i - 1].Appended?
  }

  /** The log of a run that started at season `lo` and fetches page `page`
      of `season` or a later one next: every entry follows what it needs,
      and the fetches so far are of seasons from `lo` on, in strictly
      increasing order, all before that page. */
  predicate Logged(events: seq<Event>, web: Web, template: Row, lo: int, season: int, page: int)
  {
    (forall i :: 0 <= i < |events| ==>
       Follows(events, i, web, template)
       && (events[i].Fetched? ==>
             lo <= events[i].season && 0 <= events[i].page
             && Earlier(events[i].season, events[i].page, season, page)))
    && (forall i, j :: 0 <= i < j < |events| && events[i].Fetched? && events[j].Fetched? ==>
          Earlier(events[i].season, events[i].page, events[j].season, events[j].page))
  }

  /** Fetching the page the log is waiting for moves it on to the next page. */
  lemma LoggedFetch(events: seq<Event>, web: Web, template: Row, lo: int, season: int, page: int)
    requires lo <= season && 0 <= page
    requires Logged(events, web, template, lo, season, page)
    ensures Logged(events + [Fetched(season, page)], web, template, lo, season, page + 1)
  {
    var e := events + [Fetched(season, page)];
    forall i | 0 <= i < |events|
      ensures Follows(e, i, web, template)
    {
      assert e[i] == events[i] && Follows(events, i, web, template);
      if 0 < i {
        assert e[i - 1] == events[i - 1];
      }
    }
    forall i, j | 0 <= i < j < |e| && e[i].Fetched? && e[j].Fetched?
      ensures Earlier(e[i].season, e[i].page, e[j].season, e[j].page)
    {
      assert e[i] == events[i];
      if j < |events| {
        assert e[j] == events[j];
      }
    }
  }

  /** Any entry but a fetch may be logged once what it needs is just before it. */
  lemma LoggedAppend(events: seq<Event>, x: Event, web: Web, template: Row, lo: int, season: int, page: int)
    requires !x.Fetched? && Follows(events + [x], |events|, web, template)
    requires Logged(events, web, template, lo, season, page)
    ensures Logged(events + [x], web, template, lo, season, page)
  {
    var e := events + [x];
    forall i | 0 <= i < |events|
      ensures Follows(e, i, web, template)
    {
      assert e[i] == events[i] && Follows(events, i, web, template);
      if 0 < i {
        assert e[i - 1] == events[i - 1];
      }
    }
    forall i, j | 0 <= i < j < |e| && e[i].Fetched? && e[j].Fetched?
      ensures Earlier(e[i].season, e[i].page, e[j].season, e[j].page)
    {
      assert e[i] == events[i] && e[j] == events[j];
    }
  }

  /** A log that waits for a page also waits for any later one. */
  lemma LoggedLater(events: seq<Event>, web: Web, template: Row, lo: int, season: int, page: int, season': int, page': int)
    requires Logged(events, web, template, lo, season, page)
    requires season < season' || (season == season' && page <= page')
    ensures Logged(events, web, template, lo, season', page')
  {
  }

  /** One page logs its fetch (none for page 0, whose fetch is the season's),
      then its insert, the append of the rows extracted from that page, and
      its pause, each right after the one before. */
  lemma PageStepLogs(t: Trace, web: Web, template: Row, season: int, first: Soup, p: nat, lo: int)
    requires Fetch(web, season, 0) == Ok(first)
    requires lo <= season
    requires Logged(t.events, web, template, lo, season, if p == 0 then 1 else p)
    requires p == 0 ==> |t.events| > 0 && t.events[|t.events| - 1] == Fetched(season, 0)
    ensures Logged(PageStep(t, web, template, season, first, p).events, web, template, lo, season, p + 1)
  {
    var e1 := if p > 0 then t.events + [Fetched(season, p)] else t.events;
    if p > 0 {
      LoggedFetch(t.events, web, template, lo, season, p);
    }
    var got := if p > 0 then Fetch(web, season, p) else Ok(first);
    if got.Ok? {
      var doc := ArchiveDoc(season, p, got.value.pretty);
      var e2 := e1 + [Inserted(doc)];
      assert Follows(e2, |e1|, web, template) by {
        assert e2[|e1| - 1] == e1[|e1| - 1] == Fetched(season, p);
      }
      LoggedAppend(e1, Inserted(doc), web, template, lo, season, p + 1);
      var rows := ExtractRows(got.value.groups, season, p, template);
      if rows.Ok? {
        var e3 := e2 + [Appended(rows.value)];
        assert Follows(e3, |e2|, web, template) by {
          assert e3[|e2| - 1] == Inserted(doc);
          assert PageRows(web, template, doc, rows.value);
        }
        LoggedAppend(e2, Appended(rows.value), web, template, lo, season, p + 1);
        LoggedAppend(e3, Slept(5), web, template, lo, season, p + 1);
        assert PageStep(t, web, template, season, first, p).events == e3 + [Slept(5)];
      } else {
        assert PageStep(t, web, template, season, first, p).events == e2;
      }
    } else {
      assert PageStep(t, web, template, season, first, p).events == e1;
    }
  }

  /** The page loop keeps the log in order and leaves it waiting for the next season. */
  lemma {:induction false} PageLoopLogs(t: Trace, web: Web, template: Row, season: int, first: Soup, p: nat, n: int, lo: int)
    requires Fetch(web, season, 0) == Ok(first)
    requires lo <= season
    requires Logged(t.events, web, template, lo, season, if p == 0 then 1 else p)
    requires p == 0 ==> |t.events| > 0 && t.events[|t.events| - 1] == Fetched(season, 0)
    ensures Logged(PageLoop(t, web, template, season, first, p, n).events, web, template, lo, season + 1, 0)
    decreases RangeLength(n - p)
  {
    if p < n {
      var t1 := PageStep(t, web, template, season, first, p);
      PageStepLogs(t, web, template, season, first, p, lo);
      if t1.error == None {
        PageLoopLogs(t1, web, template, season, first, p + 1, n, lo);
      } else {
        LoggedLater(t1.events, web, template, lo, season, p + 1, season + 1, 0);
      }
    } else {
      LoggedLater(t.events, web, template, lo, season, if p == 0 then 1 else p, season + 1, 0);
    }
  }

  /** One season keeps the log in order and leaves it waiting for the next season. */
  lemma SeasonStepLogs(t: Trace, web: Web, template: Row, season: int, lo: int)
    requires lo <= season
    requires Logged(t.events, web, template, lo, season, 0)
    ensures Logged(SeasonStep(t, web, template, season).events, web, template, lo, season + 1, 0)
  {
    var e0 := t.events + [Fetched(season, 0)];
    LoggedFetch(t.events, web, template, lo, season, 0);
    var got := Fetch(web, season, 0);
    if got.Ok? && NumPages(got.value).Ok? {
      var t0 := t.(events := e0);
      PageLoopLogs(t0, web, template, season, got.value, 0, NumPages(got.value).value, lo);
    } else {
      LoggedLater(e0, web, template, lo, season, 1, season + 1, 0);
    }
  }

  /** The season loop keeps the log in order. */
  lemma {:induction false} SeasonsLog(t: Trace, web: Web, template: Row, season: int, k: nat, lo: int)
    requires lo <= season
    requires Logged(t.events, web, template, lo, season, 0)
    ensures Logged(Seasons(t, web, template, season, k).events, web, template, lo, season + k, 0)
    decreases k
  {
    if k > 0 {
      var t1 := SeasonStep(t, web, template, season);
      SeasonStepLogs(t, web, template, season, lo);
      if t1.error == None {
        SeasonsLog(t1, web, template, season + 1, k - 1, lo);
      } else {
        LoggedLater(t1.events, web, template, lo, season + 1, 0, season + k, 0);
      }
    }
  }

  /** In the log of a whole run, every archive insert comes right after the
      fetch of its own page (page 0's being the season's single fetch), every
      append right after the insert of the page its rows were extracted from,
      and every pause right after an append; and
      the run fetches pages of the requested seasons only, in strictly
      increasing season-then-page order, so never one page twice. */
  lemma RunLog(web: Web, template: Row, start: int, end: Option<int>)
    ensures var e := Run(web, template, start, end).events;
      (forall i :: 0 <= i < |e| ==>
         Follows(e, i, web, template)
         && (e[i].Fetched? ==> start <= e[i].season <= end.GetOr(start) && 0 <= e[i].page))
      && (forall i, j :: 0 <= i < j < |e| && e[i].Fetched? && e[j].Fetched? ==>
            Earlier(e[i].season, e[i].page, e[j].season, e[j].page))
  {
    SeasonsLog(Done, web, template, start, SeasonCount(start, end), start);
  }

  // ---------------------------------------------------------------------
  // Each archived page closes with its rows and its pause

  /** The rows an entry of the log appends to `games`. */
  function EventRows(x: Event): seq<Row>
  {
    if x.Appended? then x.rows else []
  }

  /** The rows the first `n` entries of a log append, in log order. */
  function RowsUpTo(events: seq<Event>, n: nat): seq<Row>
    requires n <= |events|
  {
    if n == 0 then [] else RowsUpTo(events, n - 1) + EventRows(events[n - 1])
  }

  /** The rows the `Appended` entries of a log append, in log order. */
  function AppendedRows(events: seq<Event>): seq<Row>
  {
    RowsUpTo(events, |events|)
  }

  /** Adding entries to a log does not change what its first entries append. */
  lemma {:induction false} RowsUpToPrefix(events: seq<Event>, x: Event, n: nat)
    requires n <= |events|
    ensures RowsUpTo(events + [x], n) == RowsUpTo(events, n)
  {
    if n > 0 {
      assert (events + [x])[n - 1] == events[n - 1];
      RowsUpToPrefix(events, x, n - 1);
    }
  }

  lemma AppendedRowsSnoc(events: seq<Event>, x: Event)
    ensures AppendedRows(events + [x]) == AppendedRows(events) + EventRows(x)
  {
    RowsUpToPrefix(events, x, |events|);
    assert (events + [x])[|events|] == x;
  }

  /** Entry `i` of the log is completed by what must come after it: an
      archive insert, unless it is the last entry, by the append of the rows
      extracted from that page and then the five-second pause; an append by
      the pause. */
  predicate Closes(events: seq<Event>, i: nat, web: Web, template: Row)
    requires i < |events|
  {
    match events[i]
    case Inserted(d) =>
      i + 1 < |events| ==>
        i + 2 < |events| && events[i + 1].Appended?
        && PageRows(web, template, d, events[i + 1].rows) && events[i + 2] == Slept(5)
    case Appended(_) => i + 1 < |events| && events[i + 1] == Slept(5)
    case _ => true
  }

  /** Every entry of the log is completed by what must come after it. */
  predicate Closing(events: seq<Event>, web: Web, template: Row)
  {
    forall i :: 0 <= i < |events| ==> Closes(events, i, web, template)
  }

  /** The log ends with an archive insert that nothing has completed yet. */
  predicate Open(events: seq<Event>)
  {
    |events| > 0 && events[|events| - 1].Inserted?
  }

  /** Stores the run has written so far: `games` holds exactly the rows the
      log appended, and every entry but a trailing insert is completed. */
  predicate Written(t: Trace, web: Web, template: Row)
  {
    t.rows == AppendedRows(t.events) && Closing(t.events, web, template)
  }

  /** A completed log followed by a completed block is completed. */
  lemma ClosingConcat(e: seq<Event>, b: seq<Event>, web: Web, template: Row)
    requires Closing(e, web, template) && !Open(e) && Closing(b, web, template)
    ensures Closing(e + b, web, template)
  {
    var c := e + b;
    forall i | 0 <= i < |c|
      ensures Closes(c, i, web, template)
    {
      if i < |e| {
        assert c[i] == e[i] && Closes(e, i, web, template);
        if i + 1 < |e| {
          assert c[i + 1] == e[i + 1];
        }
        if i + 2 < |e| {
          assert c[i + 2] == e[i + 2];
        }
      } else {
        var k := i - |e|;
        assert c[i] == b[k] && Closes(b, k, web, template);
        if k + 1 < |b| {
          assert c[i + 1] == b[k + 1];
        }
        if k + 2 < |b| {
          assert c[i + 2] == b[k + 2];
        }
      }
    }
  }

  /** A block that ends with a fetch or an insert, and holds no append. */
  lemma ClosingShort(b: seq<Event>, web: Web, template: Row)
    requires forall i :: 0 <= i < |b| ==> b[i].Fetched? || (b[i].Inserted? && i == |b| - 1)
    ensures Closing(b, web, template)
  {
  }

  /** A page that raised nothing adds its optional fetch, its insert, the
      append of the rows extracted from it and the pause: a completed block. */
  lemma PageBlockCloses(e: seq<Event>, f: seq<Event>, doc: ArchiveDoc, rows: seq<Row>, web: Web, template: Row)
    requires Closing(e, web, template) && !Open(e)
    requires |f| <= 1 && forall i :: 0 <= i < |f| ==> f[i].Fetched?
    requires PageRows(web, template, doc, rows)
    ensures Closing(e + (f + [Inserted(doc), Appended(rows), Slept(5)]), web, template)
  {
    var b := f + [Inserted(doc), Appended(rows), Slept(5)];
    forall i | 0 <= i < |b|
      ensures Closes(b, i, web, template)
    {
      if i == |f| {
        assert b[i] == Inserted(doc) && b[i + 1] == Appended(rows) && b[i + 2] == Slept(5);
      } else if i == |f| + 1 {
        assert b[i] == Appended(rows) && b[i + 1] == Slept(5);
      } else if i < |f| {
        assert b[i] == f[i];
      }
    }
    ClosingConcat(e, b, web, template);
  }

  /** An insert, an append and a pause append exactly the append's rows. */
  lemma PageBlockRows(e: seq<Event>, doc: ArchiveDoc, rows: seq<Row>)
    ensures AppendedRows(e + [Inserted(doc), Appended(rows), Slept(5)]) == AppendedRows(e) + rows
  {
    var e2 := e + [Inserted(doc)];
    AppendedRowsSnoc(e, Inserted(doc));
    var e3 := e2 + [Appended(rows)];
    AppendedRowsSnoc(e2, Appended(rows));
    AppendedRowsSnoc(e3, Slept(5));
    assert e + [Inserted(doc), Appended(rows), Slept(5)] == e3 + [Slept(5)];
  }

  /** One page adds to `games` exactly the rows it logs as appended. */
  lemma PageStepGames(t: Trace, web: Web, template: Row, season: int, first: Soup, p: nat)
    requires t.rows == AppendedRows(t.events)
    ensures var u := PageStep(t, web, template, season, first, p);
      u.rows == AppendedRows(u.events)
  {
    var f := if p > 0 then [Fetched(season, p)] else [];
    var got := if p > 0 then Fetch(web, season, p) else Ok(first);
    var e := t.events + f;
    if p > 0 {
      AppendedRowsSnoc(t.events, Fetched(season, p));
    } else {
      assert e == t.events;
    }
    if got.Ok? {
      var doc := ArchiveDoc(season, p, got.value.pretty);
      var rows := ExtractRows(got.value.groups, season, p, template);
      if rows.Ok? {
        PageBlockRows(e, doc, rows.value);
        var u := PageStep(t, web, template, season, first, p);
        assert u.events == e + [Inserted(doc), Appended(rows.value), Slept(5)];
        assert u.rows == t.rows + rows.value;
      } else {
        AppendedRowsSnoc(e, Inserted(doc));
        var u := PageStep(t, web, template, season, first, p);
        assert u.events == e + [Inserted(doc)] && u.rows == t.rows;
      }
    } else {
      var u := PageStep(t, web, template, season, first, p);
      assert u.events == e && u.rows == t.rows;
    }
  }

  /** Unless it raised, one page closes its insert with the append of the
      rows extracted from its page and the pause, so that it leaves no
      insert open. */
  lemma PageStepCloses(t: Trace, web: Web, template: Row, season: int, first: Soup, p: nat)
    requires Fetch(web, season, 0) == Ok(first)
    requires Closing(t.events, web, template) && !Open(t.events)
    ensures var u := PageStep(t, web, template, season, first, p);
      Closing(u.events, web, template) && (u.error == None ==> !Open(u.events))
  {
    var f := if p > 0 then [Fetched(season, p)] else [];
    var got := if p > 0 then Fetch(web, season, p) else Ok(first);
    if got.Ok? {
      var doc := ArchiveDoc(season, p, got.value.pretty);
      var rows := ExtractRows(got.value.groups, season, p, template);
      if rows.Ok? {
        assert PageRows(web, template, doc, rows.value);
        PageBlockCloses(t.events, f, doc, rows.value, web, template);
        assert PageStep(t, web, template, season, first, p).events
            == t.events + (f + [Inserted(doc), Appended(rows.value), Slept(5)]);
      } else {
        var b := f + [Inserted(doc)];
        ClosingShort(b, web, template);
        ClosingConcat(t.events, b, web, template);
        assert PageStep(t, web, template, season, first, p)
            == t.(events := t.events + b, docs := t.docs + [doc], error := Some(rows.error));
      }
    } else {
      ClosingShort(f, web, template);
      ClosingConcat(t.events, f, web, template);
      assert PageStep(t, web, template, season, first, p)
          == t.(events := t.events + f, error := Some(got.error));
    }
  }

  /** A page that raised nothing ends the log with its insert, the append of
      the rows extracted from its page and the five-second pause. */
  lemma PageStepEnds(t: Trace, web: Web, template: Row, season: int, first: Soup, p: nat)
    requires Fetch(web, season, 0) == Ok(first)
    ensures var u := PageStep(t, web, template, season, first, p);
      u.error == None ==>
        (season, p) in web && |u.events| >= 3
        && u.events[|u.events| - 3] == Inserted(ArchiveDoc(season, p, web[(season, p)].pretty))
        && u.events[|u.events| - 2].Appended?
        && PageRows(web, template, u.events[|u.events| - 3].doc, u.events[|u.events| - 2].rows)
        && u.events[|u.events| - 1] == Slept(5)
  {
  }


  /** The page loop keeps `games` equal to the appended rows and leaves no
      insert open unless it raised. */
  lemma {:induction false} PageLoopCloses(t: Trace, web: Web, template: Row, season: int, first: Soup, p: nat, n: int)
    requires Fetch(web, season, 0) == Ok(first)
    requires Written(t, web, template) && !Open(t.events)
    ensures var u := PageLoop(t, web, template, season, first, p, n);
      Written(u, web, template) && (u.error == None ==> !Open(u.events))
    decreases RangeLength(n - p)
  {
    if p < n {
      var t1 := PageStep(t, web, template, season, first, p);
      PageStepGames(t, web, template, season, first, p);
      PageStepCloses(t, web, template, season, first, p);
      if t1.error == None {
        PageLoopCloses(t1, web, template, season, first, p + 1, n);
      }
    }
  }

  /** One season keeps `games` equal to the appended rows and leaves no
      insert open unless it raised. */
  lemma SeasonStepCloses(t: Trace, web: Web, template: Row, season: int)
    requires Written(t, web, template) && !Open(t.events)
    ensures var u := SeasonStep(t, web, template, season);
      Written(u, web, template) && (u.error == None ==> !Open(u.events))
  {
    var t0 := t.(events := t.events + [Fetched(season, 0)]);
    ClosingShort([Fetched(season, 0)], web, template);
    ClosingConcat(t.events, [Fetched(season, 0)], web, template);
    AppendedRowsSnoc(t.events, Fetched(season, 0));
    assert Written(t0, web, template) && !Open(t0.events);
    var got := Fetch(web, season, 0);
    if got.Ok? && NumPages(got.value).Ok? {
      PageLoopCloses(t0, web, template, season, got.value, 0, NumPages(got.value).value);
    }
  }

  /** The season loop keeps `games` equal to the appended rows and leaves no
      insert open unless it raised. */
  lemma {:induction false} SeasonsClose(t: Trace, web: Web, template: Row, season: int, k: nat)
    requires Written(t, web, template) && !Open(t.events)
    ensures var u := Seasons(t, web, template, season, k);
      Written(u, web, template) && (u.error == None ==> !Open(u.events))
    decreases k
  {
    if k > 0 {
      var t1 := SeasonStep(t, web, template, season);
      SeasonStepCloses(t, web, template, season);
      if t1.error == None {
        SeasonsClose(t1, web, template, season + 1, k - 1);
      }
    }
  }

  /** Over a whole run, `games` holds exactly the rows of the log's appends,
      in order; every archive insert but a last one that raised is followed
      by the append of the rows extracted from its page and then the
      five-second pause; and a run that raised nothing ends with no insert
      open. */
  lemma RunGames(web: Web, template: Row, start: int, end: Option<int>)
    ensures var u := Run(web, template, start, end);
      u.rows == AppendedRows(u.events)
      && (forall i :: 0 <= i < |u.events| ==> Closes(u.events, i, web, template))
      && (u.error == None ==> !Open(u.events))
  {
    SeasonsClose(Done, web, template, start, SeasonCount(start, end));
  }

  // ---------------------------------------------------------------------
  // One season, page by page

  /** The page count is read back from the `-totalPages` text `str(n)`; a
      missing span raises AttributeError and the sentinel text ValueError. */
  lemma NumPagesReadsCount(soup: Soup, n: int)
    ensures soup.totalPages == Some(ShowInt(n)) ==> NumPages(soup) == Ok(n)
    ensures soup.totalPages == Some(Sentinel) ==> NumPages(soup) == Err(ValueError(Sentinel))
    ensures soup.totalPages == None ==> NumPages(soup) == Err(AttributeError)
  {
    ParseShowInt(n);
    SentinelIsNotANumber();
  }

  /** A season whose page count is 0 or less fetches its first page and does
      nothing else; a page count that is not an integer ends the whole run
      with ValueError right after that fetch. */
  lemma SeasonPageCount(t: Trace, web: Web, template: Row, season: int, k: nat, first: Soup, text: string, n: int)
    requires 0 < k && Fetch(web, season, 0) == Ok(first) && first.totalPages == Some(text)
    ensures ParseInt(text) == Some(n) && n <= 0 ==>
      SeasonStep(t, web, template, season) == t.(events := t.events + [Fetched(season, 0)])
    ensures ParseInt(text) == None ==>
      Seasons(t, web, template, season, k)
      == t.(events := t.events + [Fetched(season, 0)], error := Some(ValueError(text)))
  {
  }

  /** A page loop that raises nothing archives exactly one document per page. */
  lemma {:induction false} PageLoopCount(t: Trace, web: Web, template: Row, season: int, first: Soup, p: nat, n: int)
    requires PageLoop(t, web, template, season, first, p, n).error == None
    ensures |PageLoop(t, web, template, season, first, p, n).docs| == |t.docs| + RangeLength(n - p)
    decreases RangeLength(n - p)
  {
    if p < n {
      var t1 := PageStep(t, web, template, season, first, p);
      assert t1.error == None && |t1.docs| == |t.docs| + 1;
      PageLoopCount(t1, web, template, season, first, p + 1, n);
    }
  }

  /** A page loop that raises nothing archives page `j`, as rendered, as its
      `j - p`-th document. */
  lemma {:induction false} PageLoopArchivesPage(t: Trace, web: Web, template: Row, season: int, first: Soup, p: nat, n: int, j: nat)
    requires Fetch(web, season, 0) == Ok(first)
    requires PageLoop(t, web, template, season, first, p, n).error == None
    requires p <= j < n
    ensures var u := PageLoop(t, web, template, season, first, p, n);
      var i := |t.docs| + (j - p);
      i < |u.docs| && u.docs[i].season == season && u.docs[i].page == j && Rendered(web, u.docs[i])
    decreases j - p
  {
    var t1 := PageStep(t, web, template, season, first, p);
    var got := if p > 0 then Fetch(web, season, p) else Ok(first);
    assert t1.error == None && got.Ok?;
    assert t1.docs == t.docs + [ArchiveDoc(season, p, got.value.pretty)];
    if j == p {
      PageLoopExtends(t1, web, template, season, first, p + 1, n);
    } else {
      PageLoopArchivesPage(t1, web, template, season, first, p + 1, n, j);
    }
  }

  /** A season that raises nothing archives each of its pages exactly once,
      in page order, each as the browser rendered it. */
  lemma SeasonArchivesEveryPage(t: Trace, web: Web, template: Row, season: int, first: Soup, n: int, j: nat)
    requires Fetch(web, season, 0) == Ok(first) && NumPages(first) == Ok(n)
    requires SeasonStep(t, web, template, season).error == None
    ensures |SeasonStep(t, web, template, season).docs| == |t.docs| + RangeLength(n)
    ensures j < n ==>
      var d := SeasonStep(t, web, template, season).docs[|t.docs| + j];
      d.season == season && d.page == j && Rendered(web, d)
  {
    var t0 := t.(events := t.events + [Fetched(season, 0)]);
    PageLoopCount(t0, web, template, season, first, 0, n);
    if j < n {
      PageLoopArchivesPage(t0, web, template, season, first, 0, n, j);
    }
  }

  /** Without an end season a run is exactly the start season's. */
  lemma RunDefaultEnd(web: Web, template: Row, start: int)
    ensures Run(web, template, start) == Run(web, template, start, Some(start))
    ensures Run(web, template, start) == SeasonStep(Done, web, template, start)
  {
    assert SeasonCount(start, None) == 1;
    var t1 := SeasonStep(Done, web, template, start);
    if t1.error == None {
      assert Seasons(t1, web, template, start + 1, 0) == t1;
    }
  }
}
