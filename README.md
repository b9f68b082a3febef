# NHL stats scraper: the ingestion core in Dafny

This project models the ingestion logic of an NHL team-statistics scraper and
proves what it does. The scraper does four things:

- `make_url` builds the stats query for a season and a zero-based result page.
- `convert_double_dash` turns the site's `--` marker into `None` and parses any
  other cell text with `int` or `float`.
- `extract_page_table` walks the row groups of a rendered page. It stops at the
  first filler row and builds one dict per real row from a copy of a template.
- `get_nhl_data` loops over the inclusive season range. For each season it
  fetches page 0 and reads the total-page count. Then, for each page, it:
  1. fetches the page (unless it is page 0),
  2. archives the prettified markup in MongoDB,
  3. appends the extracted rows to the `games` table,
  4. sleeps five seconds.

The repository has two copies of this code. `src/web_scraping.py` is the
current, typed one and the model follows it. `src/web-scraping.py` is an older
copy. Its `convert_double_dash`, `extract_page_table` and `get_nhl_data` are
the same statement for statement, so the same members model both files:
`convert_double_dash` (src/web-scraping.py:30-33) by `ConvertDoubleDash`,
`extract_page_table` (src/web-scraping.py:51-89) by `ParseRow`, `ExtractRows`
and `ExtractPageTable`, and `get_nhl_data` (src/web-scraping.py:91-118) by the
trace functions and `GetNhlData`. Every property in the table below that cites
one of those functions in src/web_scraping.py holds for the older copy too. Its
`make_url` is written as one f-string; `LegacyWebScraping` renders that
f-string and proves it builds the same URL for every season and page.

The files:

- `wrappers.dfy`: `Option` and `Result`.
- `py_builtins.dfy`: Python's `int()`, `float()` and `str()` on ASCII text.
- `web_scraping.dfy`: the model itself.
  - the URL builder, the sentinel codec and the column table
  - `ParseRow` for one table row, and the extractor loop `ExtractPageTable`
  - the run as functions of a trace: `PageStep`, `PageLoop`, `SeasonStep`,
    `Seasons`, `Run`
  - the `Stores` class
  - the orchestrator methods `ScrapePage`, `ScrapeSeason` and `GetNhlData`,
    each proved to produce exactly its trace function's trace
- `web_scraping_props.dfy`: the properties.
- `legacy_web_scraping.dfy`: the older `make_url`.

How the model represents the outside world:

- **A rendered page** is a `Soup` value with three parts:
  - its row groups, each the list of stripped cell texts;
  - the text of the `-totalPages` span, if the span exists;
  - the prettified markup, kept as an opaque string.
- **The browser** is a map `Web` from (season, page) to the page it renders.
  A page missing from the map raises.
- **The two stores** are the class `Stores`. Its `archive` field is the MongoDB
  collection and its `games` field is the SQL table. A ghost log records every
  effect in order: fetch, insert, append and pause.
- **Exceptions.** The source catches none, so the first exception ends the run.
  The methods return it as `Option<Error>`.

## Model

| member | source | states |
|---|---|---|
| PyBuiltins.ShowInt | src/web_scraping.py:30-32 | `str(n)` inside an f-string is non-empty and starts with `-` exactly when `n` is negative |
| PyBuiltins.ParseShowInt | src/web_scraping.py:160 | `int(str(n)) == n`: a page count rendered as digits reads back as itself |
| PyBuiltins.ShowIntInjective | src/web_scraping.py:32 | two integers with the same decimal rendering are equal |
| PyBuiltins.IntTextIsFloatText | src/web_scraping.py:82 | every text `int()` accepts, `float()` accepts with the same value |
| PyBuiltins.SentinelIsNotANumber | src/web_scraping.py:76-87 | `int('--')` and `float('--')` both raise ValueError |
| WebScrapingProps.MakeUrlSpelled | src/web_scraping.py:28-34 | the URL is the fixed text with `seasonFrom={y}{y+1}&` and `seasonTo={y}{y+1}` for the season, then `str(page)`, then `&pageSize=100` |
| WebScrapingProps.MakeUrlPageInjective | src/web_scraping.py:29-33 | for a fixed season, two pages get the same URL if and only if they are the same page |
| WebScrapingProps.MakeUrlPageReadBack | src/web_scraping.py:32-33 | the URL begins with the season's fixed head, and the text between that head and the fixed tail parses back to the page number |
| WebScrapingProps.ConstructRejectsSentinel | src/web_scraping.py:76-87 | `int` and `float` applied to `--` raise ValueError carrying that text |
| WebScrapingProps.ConvertDoubleDashNull | src/web_scraping.py:36-41 | `convert_double_dash` gives `None` exactly when the cell is `--`, and gives the constructor's own result (value or exception) exactly when it is not |
| WebScrapingProps.ConvertDoubleDashShowInt | src/web_scraping.py:36-41 | a rendered integer passes through `convert_double_dash` as that integer, under `int` and under `float` |
| WebScraping.ColumnAt | src/web_scraping.py:74-104 | the assignment for position `i` of the column table reads cell `i` |
| WebScrapingProps.ColumnKeysDistinct | src/web_scraping.py:74-106 | the 23 column assignments write 23 different keys, none of them `season` or `page`, so no assignment overwrites another |
| WebScrapingProps.FillColumnsComplete | src/web_scraping.py:74-104 | if every remaining column's cell is present and converts, the assignments do not raise |
| WebScrapingProps.FillColumnsKeeps | src/web_scraping.py:73-104 | a key that no remaining assignment writes keeps its presence and its value |
| WebScrapingProps.FillColumnsValue | src/web_scraping.py:74-104 | after the assignments, each column's key holds the converted text of its own cell |
| WebScrapingProps.FillColumnsError | src/web_scraping.py:74-104 | when the first failing column is `j`, the assignments raise exactly that column's exception |
| WebScrapingProps.ParseRowOk | src/web_scraping.py:73-106 | a row is built if and only if it has at least 24 cells and every column's cell converts |
| WebScrapingProps.ParseRowStamps | src/web_scraping.py:105-106 | a built row came from at least 24 cells, and it has `season` and `page` equal to the arguments |
| WebScrapingProps.ParseRowColumn | src/web_scraping.py:74-104 | each of the 23 keys holds its own cell converted by its column's rule (`team` from cell 1, `game` from cell 2, ...) |
| WebScrapingProps.ParseRowKeeps | src/web_scraping.py:73 | every template key the extractor does not assign is kept with its template value, because each row starts from a copy |
| WebScrapingProps.ParseRowNulls | src/web_scraping.py:79-103 | a column is `None` exactly when it goes through `convert_double_dash` and its cell is `--` |
| WebScrapingProps.ShortRowRaises | src/web_scraping.py:74-104 | a row with 23 cells or fewer raises; it is never padded |
| WebScrapingProps.StrictColumnRejectsSentinel | src/web_scraping.py:76-104 | a `--` in a column that does not use `convert_double_dash` raises (for example `gp`, `wins`, `point_percent`, `fo_win_percent`) |
| WebScrapingProps.ParseRowError | src/web_scraping.py:74-104 | when column `j` is the first that fails, the row raises exactly that column's exception |
| WebScrapingProps.ExtractRowsRow | src/web_scraping.py:68-108 | output row `i` is built from input row group `i`, which is a real, non-filler row: order is kept |
| WebScrapingProps.ExtractRowsEnd | src/web_scraping.py:68-71 | there are no more rows than row groups, and if there are fewer, the group at that position is a filler row (first cell `''` or `&nbsp;`) |
| WebScrapingProps.ExtractRowsComplete | src/web_scraping.py:68-108 | with `n` real, well-formed groups before the first filler row (or the end), the result has exactly `n` rows |
| WebScrapingProps.ExtractRowsError | src/web_scraping.py:69-104 | if group `n` is empty or fails to parse after `n` good groups, the extractor raises that group's exception (IndexError for an empty group) |
| WebScrapingProps.ExtractRowsStamped | src/web_scraping.py:105-108 | every returned row carries the season and page it was extracted for |
| WebScraping.ExtractPageTable | src/web_scraping.py:61-110 | the `for`/`break`/`append` loop returns exactly the rows, or the exception, of the extractor's specification, `ExtractRows` |
| WebScraping.Stores.NoteFetch | src/web_scraping.py:158-159 | a fetch adds one entry to the log and changes nothing else |
| WebScraping.Stores.InsertOne | src/web_scraping.py:169-170 | `insert_one` appends the document to the archive and to the log and changes nothing else |
| WebScraping.Stores.AppendRows | src/web_scraping.py:174-176 | `to_sql(..., if_exists='append')` appends the rows to the table and to the log and changes nothing else |
| WebScraping.Stores.Sleep | src/web_scraping.py:177 | the pause adds one entry to the log and changes nothing else |
| WebScraping.ScrapePage | src/web_scraping.py:163-177 | one page-loop iteration leaves the stores exactly as `PageStep` says: fetch (page > 0 only), insert, extract, append, pause, stopping at the first exception |
| WebScraping.ScrapeSeason | src/web_scraping.py:158-177 | one season-loop iteration leaves the stores exactly as `SeasonStep` says: one fetch of page 0, the page count, then the page loop over `range(num_pages)` |
| WebScraping.GetNhlData | src/web_scraping.py:153-180 | the whole run leaves the stores exactly as `RunFrom` says: seasons `start .. end` in order, with `end` defaulting to `start`, stopping at the first exception |
| WebScrapingProps.PageStepExtends | src/web_scraping.py:169-176 | one page only appends to the archive, the table and the log |
| WebScrapingProps.PageLoopExtends | src/web_scraping.py:162-177 | the page loop only appends |
| WebScrapingProps.SeasonStepExtends | src/web_scraping.py:157-177 | one season only appends |
| WebScrapingProps.SeasonsExtends | src/web_scraping.py:157-177 | the season loop only appends |
| WebScrapingProps.RunFromExtends | src/web_scraping.py:169-176 | a run on stores that already hold data keeps all of it: nothing is updated or deleted |
| WebScrapingProps.ArchivedAppend | src/web_scraping.py:169-170 | inserting the next page's document keeps the archive in strict (season, page) order |
| WebScrapingProps.PageStepArchives | src/web_scraping.py:165-170 | one page archives, at most once, its own markup as the browser rendered it, after every earlier page |
| WebScrapingProps.PageStepStamps | src/web_scraping.py:172-176 | one page stores only rows stamped with its season and a page number of 0 or more |
| WebScrapingProps.PageLoopKeeps | src/web_scraping.py:162-177 | the page loop keeps the archive ordered and faithful, and keeps every stored row stamped with a season within range and a page number of 0 or more |
| WebScrapingProps.SeasonStepKeeps | src/web_scraping.py:157-177 | one season keeps the archive ordered and faithful, and keeps every stored row stamped with a season within range and a page number of 0 or more |
| WebScrapingProps.SeasonsKeep | src/web_scraping.py:157-177 | the season loop keeps the archive ordered and faithful, and keeps every stored row stamped with a season within range and a page number of 0 or more |
| WebScrapingProps.RunArchive | src/web_scraping.py:153-177 | a run archives pages in strictly increasing (season, page) order, so never one page twice; each document holds the markup the browser rendered for its page, and only seasons in `start .. end` appear; every stored row carries a season in that range and a page number of 0 or more |
| WebScrapingProps.LoggedFetch | src/web_scraping.py:158-167 | fetching the awaited page keeps the log's order invariant |
| WebScrapingProps.LoggedAppend | src/web_scraping.py:169-177 | an insert, append or pause logged right after what it needs keeps the log's order invariant |
| WebScrapingProps.PageStepLogs | src/web_scraping.py:165-177 | one page keeps the log's order invariant: whatever it logs comes right after what it needs (its insert right after the fetch of that same page, its append right after that insert and holding exactly the rows extracted from that page, its pause right after the append), and its fetch (none for page 0) is later than every earlier fetch |
| WebScrapingProps.PageLoopLogs | src/web_scraping.py:162-177 | the page loop keeps that order |
| WebScrapingProps.SeasonStepLogs | src/web_scraping.py:157-177 | one season keeps that order; its first fetch serves page 0 |
| WebScrapingProps.SeasonsLog | src/web_scraping.py:157-177 | the season loop keeps that order |
| WebScrapingProps.RunLog | src/web_scraping.py:153-177 | across a whole run, every insert follows the fetch of its own page, every append follows the insert of a page and holds exactly the rows extracted from that page, and every pause follows an append. Fetches cover only the requested seasons and go in strictly increasing (season, page) order, so no page is fetched twice |
| WebScrapingProps.PageStepGames | src/web_scraping.py:171-176 | one page adds to `games` exactly the rows it logs as appended, so the table stays the concatenation of the log's appends |
| WebScrapingProps.PageStepCloses | src/web_scraping.py:169-177 | after a page, every insert but a trailing one is followed by the append of the rows extracted from its page and then the five-second pause, every append by the pause, and a page that raised nothing leaves no insert open |
| WebScrapingProps.PageStepEnds | src/web_scraping.py:165-177 | a page that raised nothing ends the log with its own insert (the markup the browser rendered for it), then the append of the rows extracted from that page, then `Slept(5)` |
| WebScrapingProps.PageLoopCloses | src/web_scraping.py:162-177 | the page loop keeps `games` equal to the log's appends and every insert closed, and leaves none open unless it raised |
| WebScrapingProps.SeasonStepCloses | src/web_scraping.py:157-177 | one season keeps `games` equal to the log's appends and every insert closed, and leaves none open unless it raised |
| WebScrapingProps.SeasonsClose | src/web_scraping.py:157-177 | the season loop keeps `games` equal to the log's appends and every insert closed, and leaves none open unless it raised |
| WebScrapingProps.RunGames | src/web_scraping.py:153-177 | over a whole run, `games` holds exactly the rows of the log's appends, in order; every insert is followed by the append of the rows extracted from its page and the five-second pause, unless it is the last entry of a run that raised; a run that raised nothing leaves no insert without its append and pause |
| WebScrapingProps.NumPagesReadsCount | src/web_scraping.py:160 | the page count reads back `n` from the text `str(n)`; a missing span raises AttributeError; the text `--` raises ValueError |
| WebScrapingProps.SeasonPageCount | src/web_scraping.py:159-162 | a season whose count is 0 or less performs its one fetch and nothing else; a count that is not an integer ends the whole run with ValueError right after that fetch |
| WebScrapingProps.PageLoopCount | src/web_scraping.py:162-170 | a page loop that raises nothing archives exactly one document per page of `range(num_pages)` |
| WebScrapingProps.PageLoopArchivesPage | src/web_scraping.py:162-170 | in a page loop that raises nothing, page `j` is archived at position `j` of the loop's documents, as the browser rendered it |
| WebScrapingProps.SeasonArchivesEveryPage | src/web_scraping.py:158-170 | a season that raises nothing archives each of its `num_pages` pages exactly once, in page order, page 0 from the season's first fetch |
| WebScrapingProps.RunDefaultEnd | src/web_scraping.py:153-154 | without an end season, a run is exactly the start season |
| LegacyWebScraping.HeadLiteralsAgree | src/web-scraping.py:27 | the f-string's literal text before the page number is the typed file's fragments joined |
| LegacyWebScraping.PageLiteralsAgree | src/web-scraping.py:27 | the f-string's literal text around the page number is the typed file's fragments joined |
| LegacyWebScraping.LegacyMakeUrlAgrees | src/web-scraping.py:26-28 | the older single f-string builds the same URL as the typed `make_url` for every season and page, and so for the default page 0 |

## Left out

- The browser: `get_soup` (`url_to_soup` in the older copy) drives Selenium
  Chrome. It becomes the `Web` map from (season, page) to rendered page.
  - A log entry `Fetched(s, p)` stands for `get_soup(make_url(s, p))`; it does
    not carry the URL text.
  - `MakeUrlPageInjective` shows that distinct pages of a season have distinct
    URLs.
  - A browser keyed by URL text is one instance of `Web`.
- BeautifulSoup: `find_all`, `.text.strip()` and `prettify()` belong to a
  foreign library. A page arrives already split into stripped cell texts, with
  its prettified markup as an opaque string.
- MongoDB, SQLAlchemy, psycopg2, `os.environ`, `make_postgres_conn` and
  `make_alchemy_engine`: database and environment I/O.
  - The two stores are `seq` fields of `Stores`.
  - `insert_one` and `to_sql` never fail in the model.
- `pd.DataFrame`: the model appends the row dicts as they are. Column order,
  dtype inference and how pandas writes an empty frame are not modelled.
- `print` is left out. `time.sleep(5)` is recorded as a log entry, with no
  clock.
- `float()`:
  - The model keeps the exact decimal value of the text. Binary rounding,
    exponents, `inf`/`nan` and underscores are not modelled.
  - `int()` is an optional sign plus ASCII digits; underscores, Unicode digits
    and surrounding whitespace are not modelled. Cell texts are already
    stripped.
- A row is a Dafny `map`. Python dict insertion order, and the DataFrame
  column order that follows from it, are not modelled.
- The `__main__` block: the template dict and the season range are arguments
  of `GetNhlData`/`Run`.
- `src/create_plots.py` (numpy, pandas and matplotlib presentation) is not
  part of this model.
- WebScrapingProps.RunArchive: this states soundness only. Completeness (every
  page of every season archived) is proved per season, by
  `SeasonArchivesEveryPage`, and not for a whole multi-season run.
- The code has no page- or season-level isolation, no retry, no per-page
  atomic write and no end-of-run failure report: the first exception ends the
  run.
- A page is archived before its table is extracted, so a page whose table
  raises stays in the archive with no rows in `games` (`PageStep`).
- A season whose page count is 0 or less gets no pause after its single fetch
  (`SeasonPageCount`).
- Template keys have one encoding each: a column name with a constructor of
  its own (`team`, `season`, `page`, ...) is written with that constructor, and
  `Other(name)` is for names outside those 25. The model does not rule out a
  template holding `Other("team")`, which Python would treat as the key `team`
  and overwrite, where the model keeps it (`ParseRowKeeps`).
