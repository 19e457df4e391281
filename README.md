# TTFL Helper — a verified model of the ranking and eligibility pipeline

TTFL Helper picks fantasy-basketball (TTFL) candidates for a date. It works in four steps:

1. It finds the teams that play on that date, from the NBA scoreboard.
2. It keeps the players of those teams.
3. It sets aside the players already picked in the recent TTFL history, which it scrapes from the TTFL site into a dated CSV cache.
4. It ranks the rest by their recent and season TTFL averages.

This project models that pipeline in Dafny and proves what each step promises.

| module (file) | models |
|---|---|
| `Common` (common.dfy) | The shared vocabulary: Option and Result, dates as day numbers, Python's `strip` (with Python's full whitespace set), `lower` and `upper` on ASCII letters, `split`, `rfind` and `str(int)`. |
| `CacheStore` (cache_store.dfy) | `cache_players_utils.py` over an in-memory file system. The class `FileStore` holds the set of directories and the map from file path to contents. Its methods are `ensure_cache_dir`, `os.makedirs`, `is_cached`, `load_df_cache`, `save_df_cache` and `os.remove`. |
| `Html` (html.dfy) | The parts of a page that both table readers look at: tables with an id, their thead, tbody and tfoot sections, and rows of cells with their stripped text. |
| `ParseTable` (parse_table.dfy) | `parse_table` of `parse_ttfl_table.py`: one dict per non-empty body row of `#MuTabme`. |
| `TtflHistory` (ttfl_history.dfy) | `_cache_path_for_date`, `_parse_mu_table_from_html` (header de-duplication, row fitting, selection of the Date and Joueur columns) and `get_ttfl_history` over a `FileStore`. |
| `Sorting` (sorting.dfy) | The sorts of `sort_values`: a stable insertion sort under an ordering relation. |
| `Ranking` (ranking.dfy) | `top_players_by_ttfl`: the season count and mean per player and team, the mean over each player's `last_x` latest games, the `min_games` filter, the descending sort and the `top_n` cut. |
| `Retry` (retry.dfy) | `_call_with_retries`: the first success, else the last exception re-raised, with the exponential back-off delays. |
| `TeamResolution` (teams.dfy) | How `main` finds the teams of a date from the scoreboard's result sets. |
| `Eligibility` (eligibility.dfy) | The rest of `top_ttfl_excluding_history.py`, namely `_load_recent_history`, the date list, the name column, the candidate exclusion and the loop over dates. |

Effects are modelled as follows:
- File-system state is the `FileStore` class, and the methods that change it carry `modifies` clauses.
- The imperative loops of the source are methods with loop invariants. Each is proved equal to a specification function, and the properties are proved as lemmas about those functions.
- The outside world enters as parameters:
  - the scoreboard, as the outcome of the k-th call for a date;
  - the history page, as an optional document;
  - the players frame;
  - the cached history files and the order in which the directory listing returns them;
  - today's date;
  - the date parsers (`datetime.fromisoformat` and `pd.to_datetime`), as functions that answer None for text they cannot read.

Where the prose description of the system and the code disagree, the model follows the code:
- A date whose teams cannot be resolved does not let the other dates proceed. `main` re-raises it as a `RuntimeError` (top_ttfl_excluding_history.py:167-168), so the run ends there (`Eligibility.RunStops`).
- Team resolution does not stop at the first column shape that yields data. Every id pair and every abbreviation pair that a result set has contributes (top_ttfl_excluding_history.py:132-150).
- `--lookback` is used both as the history window in days and as `last_x`, the number of games in the ranking's recent average (top_ttfl_excluding_history.py:174, 188). Its default of 30 means the fallback to 5 is never taken.

## Model

| member | source | states |
|---|---|---|
| CacheStore.Extension | cache_players_utils.py:19 | A non-empty extension starts with a dot and is a suffix of the path. |
| CacheStore.FileStore.IsCached | cache_players_utils.py:26-36 | A path is cached exactly when a file or a directory exists there. |
| CacheStore.FileStore.Load | cache_players_utils.py:39-49 | Loading succeeds exactly when the path holds a readable table, and returns that table. NotFound is returned exactly when nothing exists at the path. |
| CacheStore.FileStore.Makedirs | cache_players_utils.py:23 | `makedirs(exist_ok=True)` succeeds exactly when the name is non-empty and no file stands on its chain of ancestors. It then adds exactly that chain. Files never change. |
| CacheStore.FileStore.EnsureCacheDir | cache_players_utils.py:7-23 | Creates the parent of a path that has an extension, otherwise the path itself, otherwise `cache/`. Fails exactly when a file blocks that chain. Files never change. |
| CacheStore.FileStore.WriteFile | cache_players_utils.py:67 | Writing succeeds exactly when the path names no directory and its parent exists. It then sets that one file and nothing else. |
| CacheStore.FileStore.Save | cache_players_utils.py:52-67 | Succeeds exactly when the directory can be made and the file written. Afterwards the path is cached and loads back the saved table, only that file has changed, and the directories gained exactly the target's chain. A failed save leaves the files alone and keeps the chain that `ensure_cache_dir` made, if it could make it. |
| CacheStore.FileStore.Remove | ttfl_history.py:98-101 | Removes a file. It fails, and changes nothing, on a directory or a missing path. |
| CacheStore.SaveWithoutExtensionFails | cache_players_utils.py:17-23 | A path with no extension is itself created as a directory, so saving a table to it can never succeed. |
| CacheStore.SaveWithExtensionSucceeds | cache_players_utils.py:52-67 | A path with an extension saves successfully whenever no file blocks its directory chain and no directory already has the path's name. |
| CacheStore.CacheDirChain | cache_players_utils.py:4 | The default location `cache/` makes exactly the one directory `cache`. |
| CacheStore.ParentChain | cache_players_utils.py:19-20 | For a file path with a parent, the directories made are the parent's chain. That chain holds the parent but never the file itself. |
| CacheStore.RootChain | cache_players_utils.py:21-22 | For a file path without a parent, the directory made is the cache directory, which never collides with the file. |
| Html.FindFirst | parse_ttfl_table.py:46-48 | BeautifulSoup's `find`: the element returned matches and nothing before it does. None is returned exactly when nothing matches. |
| Html.FindTable | parse_ttfl_table.py:46-48 | The table found carries the id and belongs to the page. None is returned exactly when no table has that id. |
| Html.FindSection | parse_ttfl_table.py:52-63 | The first section of the requested kind, or None exactly when the table has no such section. |
| Html.CellTexts | parse_ttfl_table.py:56 | One text per cell, th and td alike, in order. |
| ParseTable.NonEmptyRows | parse_ttfl_table.py:65-67 | Keeps only rows that have cells, each drawn from the input. |
| ParseTable.NonEmptyRowsCount | parse_ttfl_table.py:65-67 | The number of kept rows is the number of rows minus the number of rows without cells. |
| ParseTable.NonEmptyRowsCounts | parse_ttfl_table.py:65-67 | Every row with cells is kept as often as it occurs, and no row without cells is kept. |
| ParseTable.LastPosition | parse_ttfl_table.py:73 | The last position of a header. It is -1 exactly when the header is absent. |
| ParseTable.Records | parse_ttfl_table.py:62-73 | One record per non-empty row, in order, each built from that row. |
| ParseTable.ParseMuTabme | parse_ttfl_table.py:36-75 | The two errors arise exactly when they should: no `#MuTabme` table, or no header cells in the first thead row. Otherwise there is one record per non-empty tbody row, in order, and no tbody gives no records. |
| ParseTable.PadRow | parse_ttfl_table.py:69-73 | The row's values, with empty text as None, padded with None to at least the header count. Their first header-count entries are the fitted row. |
| ParseTable.ZipDictKeys | parse_ttfl_table.py:73 | `dict(zip(headers, values))` has exactly the headers as keys. |
| ParseTable.ZipDictValue | parse_ttfl_table.py:73 | With duplicate headers, the value under a header is the one at its last position. |
| ParseTable.RecordFields | parse_ttfl_table.py:69-73 | A record has a field exactly for each header. The field holds the cell at the header's last position, None for an empty cell and None past the row's end. |
| TtflHistory.CachePathForDateMatches | ttfl_history.py:14-15 | The refresh glob matches a date's cache path exactly when the date has no slash. Different dates get different paths. |
| TtflHistory.UniqueHeaders | ttfl_history.py:43-54 | The renaming loop with its `seen` counter computes the positional unique names (`key`, `key__1`, `key__2`, …). |
| TtflHistory.UniqueNamesDistinct | ttfl_history.py:43-54 | The renamed headers are pairwise distinct whenever no stripped header contains `__`. |
| TtflHistory.FirstMatch | ttfl_history.py:59-60 | The first header whose stripped, lower-cased text is the target. None exactly when there is none. |
| TtflHistory.IndexOfName | ttfl_history.py:71 | The first column carrying a label, or None exactly when no column does. |
| TtflHistory.FirstMatchKeepsLabel | ttfl_history.py:59-67 | The first Date (or Joueur) header is its key's first occurrence, so its renamed label is the stripped header itself. |
| TtflHistory.SelectedColumnIsUnique | ttfl_history.py:65-71 | No other column carries the label selected for Date (or Joueur), so the selection reads exactly that column. |
| TtflHistory.NormalizeRows | ttfl_history.py:35-42 | The row loop keeps the rows that have cells, padded with "" or cut to the header count. |
| TtflHistory.LabelledColumn | ttfl_history.py:59-69 | Looking up the renamed label of the first matching header finds that header's own column. |
| TtflHistory.PickColumns | ttfl_history.py:71-75 | One history row per stored row, with the Date cell parsed and the Joueur cell as written. |
| TtflHistory.SelectHistoryColumns | ttfl_history.py:58-75 | The selection by label equals the selection by position of the first Date and Joueur headers. |
| TtflHistory.ParseMuTableFromHtml | ttfl_history.py:18-77 | The extraction fails with TableMissing exactly when the page has no `#MuTabme` table. |
| TtflHistory.SelectColumnsShape | ttfl_history.py:36-77 | From any header list and body rows: without Date and Joueur headers the result is the empty two-column frame. Otherwise it has exactly the columns found and one row per body row with cells, in order, and each Joueur and Date is taken from that row's cell in the first column of that name ("" past the row's end; the Date through the date parser), or is absent when the column is. |
| TtflHistory.HistoryFromPageShape | ttfl_history.py:27-77 | The extraction of a page whose table and tbody are found has that shape, over every th of the table and the rows of its first tbody. |
| TtflHistory.RemoveOldCaches | ttfl_history.py:96-101 | Every history file is removed. Other files and all directories stay untouched. |
| TtflHistory.CsvCell | cache_players_utils.py:49 | A Joueur cell read back by read_csv is present exactly when it was present and is not one of read_csv's NA spellings ("", "NA", "null", "None", "nan" and the others), and is then unchanged. |
| TtflHistory.CsvRoundTrip | cache_players_utils.py:49-67 | Saving and loading a history table keeps its columns, its number of rows and its dates. |
| TtflHistory.CsvRoundTripKeeps | cache_players_utils.py:49-67 | The round trip gives back the same table exactly when none of its Joueur cells is an NA spelling, so a row padded with "" loses its Joueur. |
| TtflHistory.CsvRoundTripIdempotent | cache_players_utils.py:49-67 | Saving and loading a second time changes nothing more. |
| TtflHistory.GetTtflHistory | ttfl_history.py:80-110 | Four cases. A blocked cache directory fails and changes nothing. A cache hit without force returns the stored table as read_csv gives it back (`CsvRoundTrip`), changes no file and only adds the `cache/ttfl` chain. A refresh first deletes every history file. A fetch or extraction error is then returned with only the `cache/ttfl` chain added. A page that extracts is returned exactly when its save succeeds (else SaveFailed), and is then stored under the date's path. |
| TtflHistory.CachePathShape | ttfl_history.py:14-15 | A date without a slash gives a path with extension `.csv` whose directory is `cache/ttfl`. |
| TtflHistory.RefreshSaveSucceeds | ttfl_history.py:96-110 | After the old history files are removed, saving the date's file succeeds whenever no file blocks `cache/ttfl` and no directory has the file's name. |
| TtflHistory.CachePathNotInCacheDirChain | ttfl_history.py:90-91 | Creating the cache directory never blocks the date's own cache file. |
| TtflHistory.RefreshLeavesSingleFile | ttfl_history.py:96-109 | After a successful refresh the date's file is the only history file left. |
| Sorting.Sort | top_ttfl.py:47 | The sort returns a permutation of its input. |
| Sorting.SortSorted | top_ttfl.py:65 | The sort returns its input in order when the relation is a total preorder. |
| Ranking.FirstAppearances | top_ttfl.py:35 | The group keys are pairwise distinct and are exactly the keys occurring in the frame. |
| Ranking.GroupOf | top_ttfl.py:35 | A season group holds only frame rows with its key. |
| Ranking.GroupOfCounts | top_ttfl.py:35 | A season group holds every frame row with its key, as often as it occurs. |
| Ranking.GamesOf | top_ttfl.py:46 | A player's group holds only that player's frame rows. |
| Ranking.GamesOfCounts | top_ttfl.py:46 | A player's group holds every frame row of that player, as often as it occurs. |
| Ranking.SeasonTable | top_ttfl.py:35-41 | One season row per distinct (PERSON_ID, name, team) key. |
| Ranking.MeanBounds | top_ttfl.py:38 | A mean lies between the least and the greatest score averaged. |
| Ranking.GameBeforeTotal | top_ttfl.py:47 | Ordering games by date, NaT last, is a total preorder. |
| Ranking.SortedByDate | top_ttfl.py:47 | A player's games sorted by date are in date order, NaT last. |
| Ranking.Tail | top_ttfl.py:48 | `tail(n)` is a suffix of length min(n, len). For negative n it is all but the first -n rows. |
| Ranking.Head | top_ttfl.py:66 | `head(n)` is a prefix of length min(n, len). For negative n it is all but the last -n rows. |
| Ranking.RollingTable | top_ttfl.py:44-58 | One rolling row per player when the frame has a date, none otherwise. |
| Ranking.RollingStats | top_ttfl.py:44-55 | The `lastx_list` loop computes the rolling table. |
| Ranking.WindowHoldsLatestGames | top_ttfl.py:46-48 | A player's window is the end of their games sorted by date (a permutation of them). It holds min(last_x, games) games, and no game left out is dated after a game kept. |
| Ranking.FindRolling | top_ttfl.py:60 | The merge finds the player's own rolling row, or None exactly when the player has none. |
| Ranking.Merged | top_ttfl.py:60 | A left merge keeps one row per season row. |
| Ranking.Eligible | top_ttfl.py:62 | Exactly the rows with at least `min_games` games are kept. |
| Ranking.RanksAboveTotal | top_ttfl.py:64-65 | Descending order on SORT_KEY, NaN last, is a total preorder. |
| Ranking.HeadOfSorted | top_ttfl.py:65-66 | The head of a sort is in order and drawn from the input. Everything left out ranks no higher than anything kept. |
| Ranking.TopPlayersByTtfl | top_ttfl.py:27-66 | The method computes the ranking function. |
| Ranking.RankingIsTopCut | top_ttfl.py:60-66 | The result has at most `top_n` rows and is sorted by SORT_KEY. Every row has at least `min_games` games and is drawn from the eligible candidates. No candidate left out ranks above a row kept. |
| Ranking.RankedRowInMerged | top_ttfl.py:60-66 | Every ranked row comes from the merged season and rolling table. |
| Ranking.RankedRowHasGame | top_ttfl.py:35-66 | Every ranked row is the group of some game of the frame. |
| Ranking.FindRollingOfPlayer | top_ttfl.py:46-60 | Every player of a dated frame finds their own rolling stats in the merge. |
| Ranking.RankedRowStats | top_ttfl.py:35-64 | N_GAMES and SEASON_AVG are the count and the mean of the group's scores. LASTX_N and LASTX_AVG are the size and the mean of the player's latest-games window, or absent without a date, in which case SORT_KEY is the season mean. |
| Retry.FirstSuccess | top_ttfl_excluding_history.py:107-109 | The first successful attempt, with failures before it. None exactly when every attempt fails. |
| Retry.RetryOutcome | top_ttfl_excluding_history.py:105-114 | The value of the first success, else the last attempt's exception, else (no attempts) nothing to raise. |
| Retry.CallWithRetries | top_ttfl_excluding_history.py:105-114 | The loop makes the attempts up to the first success and returns its value or re-raises the last failure. It sleeps `base_delay * 2^k` after each failure k, the last one included. |
| Retry.FirstSuccessAt | top_ttfl_excluding_history.py:107-109 | An attempt that succeeds after failures only is the first success. |
| Retry.TotalBackoff | top_ttfl_excluding_history.py:113 | n failures sleep `base_delay * (2^n - 1)` in total. |
| Retry.DefaultBackoff | top_ttfl_excluding_history.py:105 | With the defaults (5 attempts, 2 seconds), a failing scoreboard costs 62 seconds of sleep. |
| TeamResolution.AddRowIds | top_ttfl_excluding_history.py:134-139 | The row loop adds, per row, the home id when it converts, then the away id when it converts too. |
| TeamResolution.ScanIdPairs | top_ttfl_excluding_history.py:126-139 | Every id column pair that the result set has contributes its ids. |
| TeamResolution.ScanAbbrPairs | top_ttfl_excluding_history.py:142-150 | Every abbreviation column pair that the result set has contributes its normalised non-null values. |
| TeamResolution.ScanMarked | top_ttfl_excluding_history.py:152-155 | The fallback collects every column whose upper-cased name contains TEAM_ABBREVIATION. |
| TeamResolution.ScanFrame | top_ttfl_excluding_history.py:123-155 | One result set's turn: ids and pair abbreviations, and the fallback only while no abbreviation is known. |
| TeamResolution.ResolveTeams | top_ttfl_excluding_history.py:121-166 | Computes the resolution. It succeeds only with a non-empty set of abbreviations. |
| TeamResolution.FoldGrows | top_ttfl_excluding_history.py:123 | Ids and abbreviations only accumulate from one result set to the next. |
| TeamResolution.PairAbbreviationsKept | top_ttfl_excluding_history.py:142-150 | Every abbreviation of every present pair in every result set is among the teams found. |
| TeamResolution.PairIdsKept | top_ttfl_excluding_history.py:126-139 | Every convertible id of every present pair in every row is among the ids found. |
| TeamResolution.PairAbbreviationsDecide | top_ttfl_excluding_history.py:142-161 | One non-null abbreviation in a present pair decides the outcome: the teams found, without the id mapping. |
| Eligibility.ReadTables | top_ttfl_excluding_history.py:21-28 | Every table read comes from a listed path holding a readable table. |
| Eligibility.ReadTablesComplete | top_ttfl_excluding_history.py:21-28 | Every listed path holding a readable table is read. |
| Eligibility.AllRowsMember | top_ttfl_excluding_history.py:31 | A row is in the concatenation exactly when it is a row of one of the tables. |
| Eligibility.AnyDate | top_ttfl_excluding_history.py:32 | The concatenation has a Date column exactly when some table has one. |
| Eligibility.WindowRows | top_ttfl_excluding_history.py:34-36 | Exactly the rows dated within [target - lookback, target] are kept. |
| Eligibility.Concat | top_ttfl_excluding_history.py:31-33 | The loop computes the concatenated rows and which of the two columns they have. |
| Eligibility.InWindowRows | top_ttfl_excluding_history.py:36 | The mask loop computes the window rows. |
| Eligibility.LoadRecentHistory | top_ttfl_excluding_history.py:16-37 | The method computes the recent history of a target date. |
| Eligibility.ExclusionFromFiles | top_ttfl_excluding_history.py:174-177 | A name is excluded exactly when some history file holds a row in the window whose Joueur reads back as present (not an NA spelling) and normalises to it, whatever order the listing returns. |
| Eligibility.ExcludedNameHasFile | top_ttfl_excluding_history.py:174-177 | An excluded name comes from a history file that names it within the window. |
| Eligibility.FileNameExcluded | top_ttfl_excluding_history.py:174-177 | A name that a listed history file gives within the window is excluded. |
| Eligibility.NonEmpty | top_ttfl_excluding_history.py:75-76 | Exactly the non-empty pieces are kept. |
| Eligibility.BuildDates | top_ttfl_excluding_history.py:55-83 | There are three modes. `--start` with `--days` gives that many consecutive days, with the three error cases. `--date` gives the listed dates. Neither gives today. |
| Eligibility.ParseDateArgs | top_ttfl_excluding_history.py:71-81 | The nested loop parses the comma-separated pieces of every `--date` value in order. |
| Eligibility.ParseDateValue | top_ttfl_excluding_history.py:73-81 | The inner loop over one value's pieces continues the parse of the earlier values. |
| Eligibility.ParseAllSnoc | top_ttfl_excluding_history.py:77-81 | One more piece either adds its date or stops with that piece as the invalid date. |
| Eligibility.PieceStep | top_ttfl_excluding_history.py:74-79 | An empty piece changes nothing, and a piece that parses adds its date. |
| Eligibility.InvalidPieceStops | top_ttfl_excluding_history.py:80-81 | A piece that does not parse ends the whole parse with that piece. |
| Eligibility.ArgErrorStops | top_ttfl_excluding_history.py:80-81 | Once a piece fails, later `--date` values change nothing. |
| Eligibility.DatePartsMember | top_ttfl_excluding_history.py:72-76 | The pieces are exactly the non-empty stripped comma-separated pieces of the values. |
| Eligibility.ParseAllMeaning | top_ttfl_excluding_history.py:72-81 | The dates are found exactly when every piece parses, and are then the pieces parsed in order. Otherwise the error names the first piece that does not parse. |
| Eligibility.FirstPresent | top_ttfl_excluding_history.py:89-93 | The first candidate that is a column, or None exactly when none is. |
| Eligibility.ChooseNameColumn | top_ttfl_excluding_history.py:89-96 | The name column is the first of DISPLAY_FIRST_LAST, DISPLAY_NAME and Player that the frame has. It is absent exactly when the frame has none of them. |
| Eligibility.NobodyPlaysIff | top_ttfl_excluding_history.py:163-171 | "No game found" is reported exactly when no row's team plays. |
| Eligibility.CandidateRows | top_ttfl_excluding_history.py:180-182 | A row is a candidate exactly when its normalised name plays that day and was not picked recently. |
| Eligibility.ProcessDay | top_ttfl_excluding_history.py:100-189 | The body of the date loop computes the outcome of one date. |
| Eligibility.RunMain | top_ttfl_excluding_history.py:54-189 | The method computes the whole run: the dates, the name column, then the date loop. |
| Eligibility.RunStops | top_ttfl_excluding_history.py:167-168 | Once a date raises, the later dates change nothing. |
| Eligibility.RunDaysMeaning | top_ttfl_excluding_history.py:100-189 | The run reports every date in order until the first that raises. The error is that date's. Without an error, every date is reported. |
| Eligibility.RankingBounds | top_ttfl_excluding_history.py:188-189 | The table printed has at most `--top` rows, each player with at least 10 games and at most `--lookback` recent games. |
| Eligibility.CandidateEligible | top_ttfl_excluding_history.py:174-182 | Every candidate's normalised name belongs to a player of a team that plays that day, and no history file names them within the window. |
| Eligibility.RankedFromCandidates | top_ttfl_excluding_history.py:180-189 | Every ranked row is grouped from some candidate row. |
| Eligibility.RankedDay | top_ttfl_excluding_history.py:100-189 | A ranked day lists only players whose normalised name belongs to a player of a playing team and who were not picked in the window. It has at most `--top` rows, each with at least 10 games and at most `--lookback` recent games. |
| Eligibility.RankedCandidates | top_ttfl.py:58-74 | A ranked day is the ranking of its candidates, and a non-empty one has dates (without them `print_top_players` fails on LASTX_STD). |

## Left out

- Reading HTML and CSV files is left out, because they are foreign parsers. A page is an abstract document whose cells hold their stripped text, and a CSV file holds the table that was written to it. Reading it back is modelled only for the Joueur column's missing values (`TtflHistory.CsvRoundTrip`).
- `pd.to_datetime` and `datetime.fromisoformat` become parameters returning None for unreadable text, because date parsing is a foreign library.
- `date.today()` and `datetime.today()` become a parameter, because they read a clock.
- The scoreboard call (ScoreboardV2) and the history fetch become parameters, because they use the network.
- The directory listing of `glob.glob` becomes a parameter (the listed paths, in order). The eligibility lemmas assume the listing is exactly the set of history files, because the listing order is up to the operating system.
- The sleeps of `_call_with_retries` are returned as a list of durations, and the 0.6-second pause after a scoreboard call is left out, because both are clock effects only.
- `os.makedirs` is modelled as all-or-nothing. A partial creation before a failure is not modelled.
- Ranking.TopPlayersByTtfl: does not compute SEASON_STD or LASTX_STD. This is floating-point variance; the standard deviations are never ranked on. The LASTX_VAR column of the empty no-date frame is left out for the same reason.
- Ranking.TopPlayersByTtfl: groups and players appear in order of first appearance rather than pandas' sorted key order, and both sorts are stable insertion sorts, while pandas' `sort_values` uses an unstable quicksort. So among rows tied on SORT_KEY at the `top_n` cut, which ones are kept can differ, not only their order. `Ranking.RankingIsTopCut` holds for every tie order.
- Ranking.SeasonTable: group keys are never null in the model. pandas `groupby` would drop a row whose PERSON_ID, name or team is null.
- Common.NormName: `Trim` removes Python's whitespace, but `Lower` and `Upper` (and so `NormName` and `NormTeam`) only change the ASCII letters. Python's `str.lower()` and `str.upper()` also map accented and other non-ASCII letters, because full Unicode case mapping is a table outside the model; two names that differ only in the case of a non-ASCII letter compare as different here.
- TtflHistory.CsvRoundTrip: read_csv's type inference is not modelled. A Joueur that reads as a number ("1.50" becomes 1.5) and the Date column of a cache hit, which read_csv returns as text rather than as dates, are taken back as written.
- TeamResolution.AddRowIds: `int()` converts integer cells only. A text cell holding digits counts as not convertible.
- Eligibility.NameOf: a null name reads as the text "nan", as `astype(str)` writes it, and the frame is assumed to hold TEAM_ABBREVIATION, PERSON_ID and TTFL_SCORE. A frame without DISPLAY_FIRST_LAST fails in the ranking's `groupby` (`MissingDisplayFirstLast`), and a non-empty ranking without dates fails when `print_top_players` selects LASTX_STD (`MissingLastxStd`).
- Argument parsing, the help text, `print_top_players`' rounding and every printed message are left out, because they are console I/O. A run's result is the list of per-date reports and the error that ended it.
- `fetch_players_ttfl`, `get_players_stats`, `compute_ttfl_score` and `ttfl_getter.get_history` are not part of this model. They fetch the data that the model takes as parameters.
- `to_dataframe`, `to_numpy_array` and `main` of parse_ttfl_table.py are not part of this model. They are output conversions and a command-line wrapper.
