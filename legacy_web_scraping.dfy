/** The older copy of the pipeline, src/web-scraping.py. Its
    `convert_double_dash`, `extract_page_table` and `get_nhl_data` are the
    typed file's statement for statement (its `url_to_soup` is `get_soup`
    under another name), so the members of WebScraping model them as they
    stand. Only `make_url` is written differently, as one f-string instead of
    a sum of literals and f-strings; this module renders that f-string and
    proves it builds the same URL for every season and page. */
module LegacyWebScraping {
  import opened PyBuiltins
  import opened WebScraping
  import opened WebScrapingProps

  // The literal text of the single f-string between its interpolations,
  // each written as the concatenation of its query parameters.
  const LegacyHead := "http://www.nhl.com/stats/teams?aggregate=0" + "&reportType=game" + "&seasonFrom="
  const LegacySeasonTo := "&seasonTo="
  const LegacyFilter := "&dateFromSeason" + "&gameType=2" + "&filter=gamesPlayed,gte,1" + "&sort=points,wins" + "&page="
  const LegacyTail := "&pageSize=100"

  /** The pieces of the f-string, in order. */
  function LegacyPieces(year: int, page: int): seq<Piece>
  {
    [ Chars(LegacyHead), Field(year), Field(year + 1),
      Chars(LegacySeasonTo), Field(year), Field(year + 1),
      Chars(LegacyFilter), Field(page), Chars(LegacyTail) ]
  }

  /** The query URL for one season and one zero-based result page. */
  function LegacyMakeUrl(year: int, page: int := 0): string
  {
    Render(LegacyPieces(year, page))
  }

  /** The nine pieces render one after another. */
  lemma RenderNine(a: Piece, b: Piece, c: Piece, d: Piece, e: Piece, f: Piece, g: Piece, h: Piece, i: Piece)
    ensures Render([a, b, c, d, e, f, g, h, i])
         == (PieceText(a) + (PieceText(b) + (PieceText(c) + (PieceText(d) + ""))))
            + ((PieceText(e) + (PieceText(f) + (PieceText(g) + (PieceText(h) + ""))))
            + (PieceText(i) + ""))
  {
    assert [a, b, c, d, e, f, g, h, i] == [a, b, c, d] + ([e, f, g, h] + [i]);
    RenderAppend([a, b, c, d], [e, f, g, h] + [i]);
    RenderAppend([e, f, g, h], [i]);
    RenderFour(a, b, c, d);
    RenderFour(e, f, g, h);
    assert Render([i]) == PieceText(i) + "" by {
      assert [i][1..] == [];
    }
  }

  /** The literal text of the f-string before the page number, cut where the typed file cuts it. */
  lemma HeadLiteralsAgree()
    ensures LegacyHead == StatsBase + SeasonFromKey
    ensures LegacySeasonTo == "&" + SeasonToKey
  {
  }

  /** The literal text of the f-string around the page number, cut where the typed file cuts it. */
  lemma PageLiteralsAgree()
    ensures LegacyFilter == GameFilter + PageKey
    ensures LegacyTail == "&" + PageSize
  {
    assert GameFilter == "&dateFromSeason" + "&gameType=2";
    assert PageKey == "&filter=gamesPlayed,gte,1" + "&sort=points,wins" + "&page=";
  }

  /** The f-string's rendering, regrouped from left to right. */
  lemma LegacyRegroup(base: string, k1: string, y0: string, y1: string, amp: string, k2: string,
                      gf: string, pk: string, pg: string, ps: string)
    ensures ((base + k1) + (y0 + (y1 + ((amp + k2) + ""))))
            + ((y0 + (y1 + ((gf + pk) + (pg + "")))) + ((amp + ps) + ""))
         == base + k1 + y0 + y1 + amp + k2 + y0 + y1 + gf + pk + pg + (amp + ps)
  {
  }

  /** Both files build the same URL for every season and page, and so for
      the default page 0. */
  lemma LegacyMakeUrlAgrees(year: int, page: int)
    ensures LegacyMakeUrl(year, page) == MakeUrl(year, page)
  {
    RenderNine(Chars(LegacyHead), Field(year), Field(year + 1),
               Chars(LegacySeasonTo), Field(year), Field(year + 1),
               Chars(LegacyFilter), Field(page), Chars(LegacyTail));
    HeadLiteralsAgree();
    PageLiteralsAgree();
    LegacyRegroup(StatsBase, SeasonFromKey, ShowInt(year), ShowInt(year + 1), "&", SeasonToKey,
                  GameFilter, PageKey, ShowInt(page), PageSize);
    MakeUrlSpelled(year, page);
  }
}
