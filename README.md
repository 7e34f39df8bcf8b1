# PATSTAT Explorer core, modelled in Dafny

This project models the logic at the heart of PATSTAT Explorer, a Streamlit app and notebook
toolkit for patent statistics on the EPO's PATSTAT data. It covers five parts:

- **SQL parameter handling** (`sql_utils.dfy`, module `SqlUtils`). It finds the `@name` placeholders
  of a query. It also rewrites a query for the TIP platform: backticks removed, scalar placeholders
  replaced by literals, and `IN UNNEST(@jurisdictions)` / `UNNEST(@competitors)` replaced by
  quoted lists. Every `str.replace` and `re.sub` is one left-to-right scanner, `RewriteBy`, over a
  matcher. The regular expressions are matchers built from `SkipSpaces`, `CiPrefixAt` and `ParenEnd`.
- **The TIP-for-PATLIBs widget core** (`tip_core.dfy`, module `TipCore`). `AnalysisState` is a class
  whose fields the widget callbacks update in place. `WidgetFactory` is a class holding that state
  and the values of the widgets it mirrors. Around them sit IPC code validation, the summary text,
  the performance tip, export file names, name truncation, empty-result detection and the
  suggestions shown when a query returns nothing.
- **Building the CPC hierarchy database** (`cpc_build.dfy`, module `CpcBuild`). Symbol formats,
  level-to-kind codes, title-file cleaning, and the row loop of `build_database`. That loop tracks
  the latest symbol of each level to find parents, and writes rows in batches of 10,000.
- **Uploading the hierarchy** (`cpc_upload.dfy`, module `CpcUpload`). The lookup read back from the
  table, the full title chain of each symbol, and the rows and counts prepared for BigQuery.
- **App navigation** (`app_nav.dfy`, module `AppNav`). The session state as a map, its
  initialisation, the landing and detail navigation actions, the category filter of the query
  list, and the routing decision `main` takes on each run.

Two support modules hold what the others share:

- `base.dfy` (module `Base`): `Option`, filtering, counting, folds and scans over sequences, and
  dictionary building.
- `text.dfy` (module `Text`): Python's string built-ins as the source uses them. These are
  `strip`, `split`/`join`, `upper`, `zfill`, `ljust`, `str(int)`, slicing with negative bounds, and
  the exact set of characters `str.isspace` accepts.

Operations that work step by step in the source are methods, with loops and invariants where the
source loops. Where the result has a functional description, the method is proved equal to that
function, and the properties are proved about the function. Examples:

- `FormatSqlForTip` against `FormattedSql`, and its two halves `SubstituteYearsAndField` and
  `SubstituteNames` against `ApplyAll` of their lists of steps;
- `ExtractTitles` against `TitlesFrom`;
- `BuildRows` against `DeriveRows`;
- `ReadLookup` against `LookupFrom`;
- `BuildTitleFull` against `TitleFull`.

State held in objects is a class with `modifies` clauses:

- `AnalysisState` and `WidgetFactory`;
- `App`, whose `session` field is Streamlit's `st.session_state`. Its ghost counter `reruns`
  counts the calls to `st.rerun()`.

## Model

| member | source | states |
|---|---|---|
| SqlUtils.WordRun | modules/utils.py:21 | the `\w+` run after an index: every character a word character, and the next one not |
| SqlUtils.FindPlaceholders | modules/utils.py:21 | every name `re.findall` returns is a non-empty run of word characters; which names are found is stated by `FindPlaceholdersIff` |
| SqlUtils.FindPlaceholdersIff | modules/utils.py:21-22 | a name is in the `re.findall` result from an index exactly when it is non-empty and a token `@name` starts at or after that index |
| SqlUtils.DetectSqlParameters | modules/utils.py:19-22 | a name is detected exactly when it is non-empty and some `@` in the text is followed by exactly that maximal word run |
| SqlUtils.DetectedAreTokens | modules/utils.py:19-22 | the list before deduplication holds exactly the same names as the set |
| SqlUtils.DetectedNamesAreWords | modules/utils.py:19-22 | every detected name is a non-empty run of word characters, and `@name` occurs in the query |
| SqlUtils.RemoveBackticksSegment | modules/utils.py:34 | a backticked segment with no backtick in front of it is replaced by its body, and the scan goes on after it |
| SqlUtils.RemoveBackticksKeepsText | modules/utils.py:34 | removing backticks changes no other character: with all backticks dropped, input and output are equal |
| SqlUtils.RemoveBackticksNoop | modules/utils.py:34 | a query without backticks is left unchanged |
| SqlUtils.SkipSpaces | modules/utils.py:47 | `\s*` consumes a whitespace run and stops at the first character that is not whitespace, or at the end |
| SqlUtils.RemoveBackticks | modules/utils.py:34 | no contract of its own: `re.sub` of each backticked segment by its body, scanned left to right; stated by `RemoveBackticksSegment`, `RemoveBackticksKeepsText` and `RemoveBackticksNoop` |
| SqlUtils.Rewrite | modules/utils.py:38-79 | no contract of its own: every `str.replace` and `re.sub` step is this left-to-right scan of one pattern; stated by the `Rewrite…` lemmas below |
| SqlUtils.InUnnestMatchesClause | modules/utils.py:46-51 | `IN<ws>UNNEST<ws>(<ws>@name<ws>)`, in any letter case and with any whitespace runs (the first not empty), is matched whole |
| SqlUtils.UnnestMatchesClause | modules/utils.py:74-79 | `UNNEST<ws>(<ws>@name<ws>)`, in any letter case and with any whitespace runs, is matched whole |
| SqlUtils.RewriteWithoutMatch | modules/utils.py:46-51 | where the pattern matches nowhere, the substitution leaves the text unchanged |
| SqlUtils.LiteralAbsentUnchanged | modules/utils.py:38 | `str.replace` of a placeholder that does not occur leaves the text unchanged |
| SqlUtils.RewriteAtFirstMatch | modules/utils.py:46-51 | the text before the first match is kept, the match becomes the replacement, and the scan resumes after the match |
| SqlUtils.RewriteLeavesNoOccurrence | modules/utils.py:38 | after replacing every occurrence of a placeholder by text that cannot rebuild it, the placeholder no longer occurs |
| SqlUtils.RewriteKeepsCharOut | modules/utils.py:46-51 | a character in neither the text nor the replacement is not in the result |
| SqlUtils.QuoteEach | modules/utils.py:44 | each list value becomes its quoted form, in order |
| SqlUtils.QuotedListSafe | modules/utils.py:44 | the joined list of quoted values contains no `@` when no value does |
| SqlUtils.EscapeQuotesDoubles | modules/utils.py:64 | escaping doubles every single quote and keeps every other character |
| SqlUtils.EscapeQuotes | modules/utils.py:64 | no contract of its own: `replace("'", "''")`; stated by `EscapeQuotesDoubles` and `EscapeQuotesRoundTrip` |
| SqlUtils.EscapeQuotesRoundTrip | modules/utils.py:62-65 | SQL reading of the quoted, escaped applicant name gives back the name |
| SqlUtils.ReplaceResolves | modules/utils.py:37-69 | replacing a placeholder by safe text removes every occurrence of it, and placeholders already gone stay gone |
| SqlUtils.RewriteKeepsResolved | modules/utils.py:46-51 | the list substitutions never bring back a placeholder already replaced |
| SqlUtils.StripKeepsResolved | modules/utils.py:82 | the final strip never brings back a replaced placeholder |
| SqlUtils.SubstituteYearsAndField | modules/utils.py:36-55 | the text after the year-start, year-end, jurisdiction and field steps, each applied only when its parameter is supplied (a list only when non-empty), in the source's order; with no parameters the text is unchanged, and each supplied scalar placeholder is gone |
| SqlUtils.SubstituteNames | modules/utils.py:57-79 | the text after the sector, applicant, IPC and competitor steps, each applied only when supplied, in the source's order; with no parameters the text is unchanged, and each supplied placeholder is gone |
| SqlUtils.FormatSqlForTip | modules/utils.py:25-84 | the result is exactly `FormattedSql`: backticks removed, the eight steps, then the strip; with no parameters it is the query without backticks, stripped; it is always stripped; when no supplied value contains `@`, no supplied scalar placeholder remains |
| SqlUtils.FormattedSql | modules/utils.py:25-84 | no contract of its own: the formatter as one function, its steps listed by `YearsAndFieldSubstitutions` and `NameSubstitutions`; stated by the `Formatted…` lemmas |
| SqlUtils.FormattedYearStart | modules/utils.py:37-38 | in a query whose text around `@year_start` holds no `@` and no backtick: a supplied year replaces every occurrence by its decimal text, an absent one leaves the placeholder; the rest is kept and the result stripped |
| SqlUtils.FormattedYearEnd | modules/utils.py:39-40 | the same for `@year_end` |
| SqlUtils.FormattedJurisdictions | modules/utils.py:42-51 | a query holding one `IN UNNEST(@jurisdictions)` clause: a non-empty list turns the clause into `IN (` + the quoted values + `)`; an empty list leaves it; the text around is kept and the result stripped |
| SqlUtils.FormattedTechField | modules/utils.py:53-55 | the same as for the years, for `@tech_field` |
| SqlUtils.FormattedTechSector | modules/utils.py:57-59 | a supplied sector replaces every `@tech_sector` by the value in single quotes; an absent one leaves the placeholder |
| SqlUtils.FormattedApplicantName | modules/utils.py:61-65 | a supplied name replaces every `@applicant_name` by the name with its quotes doubled, in single quotes; an absent one leaves the placeholder |
| SqlUtils.FormattedIpcClass | modules/utils.py:67-69 | a supplied class replaces every `@ipc_class` by the value in single quotes; an absent one leaves the placeholder |
| SqlUtils.FormattedCompetitors | modules/utils.py:71-79 | a query holding one `UNNEST(@competitors)` clause: a non-empty list turns it into `(` + the quoted values + `)`; an empty list leaves it |
| TipCore.Selection.IsValid | context/tip_for_patlibs/tip4patlibs_core.py:325-350 | valid exactly when a country is set and, in field mode, a field is chosen, or in IPC mode a code is entered; each failure has its own message, checked in the source's order |
| TipCore.Selection.Summary | context/tip_for_patlibs/tip4patlibs_core.py:300-323 | the summary starts with the country line and ends with the SME line when the filter is on, else with the period line |
| TipCore.SummaryLinesSingle | context/tip_for_patlibs/tip4patlibs_core.py:300-323 | every summary line is free of line breaks when the chosen country, region and codes are |
| TipCore.SummaryReadBack | context/tip_for_patlibs/tip4patlibs_core.py:300-323 | splitting the summary at line breaks gives back exactly its lines |
| TipCore.SummaryHtml | context/tip_for_patlibs/tip4patlibs_core.py:1354-1363 | text without line breaks is wrapped in the panel markup unchanged |
| TipCore.SummaryPanelShowsLines | context/tip_for_patlibs/tip4patlibs_core.py:1354-1363 | the panel shows the summary lines joined by `<br>` |
| TipCore.IsIpcCode | context/tip_for_patlibs/tip4patlibs_core.py:1065-1066 | an accepted code is trimmed and holds no comma, so it is one whole piece of the input |
| TipCore.NormalizeCodes | context/tip_for_patlibs/tip4patlibs_core.py:1069 | there are no more normalised codes than input pieces; which pieces are kept is stated by `AcceptedCodes` and `NormalizedValidIff` |
| TipCore.AnalysisState.constructor | context/tip_for_patlibs/tip4patlibs_core.py:274-298 | a new state holds the default selection |
| TipCore.AnalysisState.Reset | context/tip_for_patlibs/tip4patlibs_core.py:1435-1442 | resetting puts every field back to its default |
| TipCore.ValidateIpcCodes | context/tip_for_patlibs/tip4patlibs_core.py:1044-1092 | blank input gives no codes, not valid, no message; at most five codes, each a well-formed IPC code; valid exactly when some code is accepted; no message means not valid |
| TipCore.ValidateIpcCodesKeepsFirstFive | context/tip_for_patlibs/tip4patlibs_core.py:1044-1092 | the accepted codes are the first five well-formed normalised pieces; valid exactly when some comma-separated piece is a well-formed code |
| TipCore.AcceptedCodes | context/tip_for_patlibs/tip4patlibs_core.py:1044-1092 | the accepted codes are the well-formed normalised pieces, cut to five |
| TipCore.NormalizedValidIff | context/tip_for_patlibs/tip4patlibs_core.py:1044-1092 | no normalised piece is well formed exactly when no input piece is |
| TipCore.PerformanceTipText | context/tip_for_patlibs/tip4patlibs_core.py:1255-1270 | fast tip exactly for spans up to 5 years, medium exactly for 6 to 10, large exactly above 10 |
| TipCore.WidgetFactory.constructor | context/tip_for_patlibs/tip4patlibs_core.py:731-742 | the factory holds the given state and no widget yet |
| TipCore.WidgetFactory.CreateTechnologySection | context/tip_for_patlibs/tip4patlibs_core.py:1164-1200 | creates the empty IPC feedback widget and leaves the other widgets alone |
| TipCore.WidgetFactory.CreateDateRangeSection | context/tip_for_patlibs/tip4patlibs_core.py:1306-1332 | creates the performance tip for the state's current year span |
| TipCore.WidgetFactory.CreateReviewSection | context/tip_for_patlibs/tip4patlibs_core.py:1688-1728 | creates the summary panel, validation message and run button; the button is disabled exactly when the selection is not valid |
| TipCore.WidgetFactory.UpdateSummaryPanel | context/tip_for_patlibs/tip4patlibs_core.py:1354-1363 | an existing panel shows the current summary; without one nothing changes |
| TipCore.WidgetFactory.UpdateRunButtonState | context/tip_for_patlibs/tip4patlibs_core.py:1643-1662 | an existing button is disabled exactly when the selection is not valid, and its message follows the verdict; nothing else changes |
| TipCore.WidgetFactory.OnTechFieldChange | context/tip_for_patlibs/tip4patlibs_core.py:950-967 | a chosen field (not the placeholder) sets the field and switches to field mode; otherwise the state is unchanged; the review widgets stay current; the review widgets that exist stay current, and the validation message stays shown or hidden as it was |
| TipCore.WidgetFactory.OnIpcInputChange | context/tip_for_patlibs/tip4patlibs_core.py:1094-1119 | stores the accepted codes, switches to IPC mode only when valid, and shows the validation message; the review widgets that exist stay current, and the validation message stays shown or hidden as it was |
| TipCore.WidgetFactory.OnTechModeChange | context/tip_for_patlibs/tip4patlibs_core.py:1121-1162 | custom mode sets IPC mode and clears the field; the other choice sets field mode and clears the codes; the review widgets that exist stay current, and the validation message stays shown or hidden as it was |
| TipCore.WidgetFactory.OnYearRangeChange | context/tip_for_patlibs/tip4patlibs_core.py:1284-1304 | stores both years and refreshes the performance tip for the new span; the review widgets that exist stay current, and the validation message stays shown or hidden as it was |
| TipCore.WidgetFactory.OnSmeChange | context/tip_for_patlibs/tip4patlibs_core.py:1389-1400 | stores the SME flag and changes nothing else in the state; the review widgets that exist stay current, and the validation message stays shown or hidden as it was |
| TipCore.WidgetFactory.OnResetClick | context/tip_for_patlibs/tip4patlibs_core.py:1426-1489 | the state returns to the defaults, the IPC feedback is cleared, the tip shows the 5-year fast tip, and the run button ends disabled; the review widgets that exist stay current, and the validation message stays shown or hidden as it was |
| TipCore.TruncateName | context/tip_for_patlibs/tip4patlibs_core.py:1771-1788 | missing or empty names give `""`; names within the limit are kept; longer names become exactly the limit long, keep the prefix and end in `...` |
| TipCore.IsZeroResults | context/tip_for_patlibs/tip4patlibs_core.py:2438-2450 | zero results exactly when neither the trend nor the applicant table has a cell |
| TipCore.GenerateSuggestions | context/tip_for_patlibs/tip4patlibs_core.py:2453-2483 | each hint is present exactly when its filter narrows the query (span of 3 years or less, with the span in the text; SME filter; region; IPC mode); no other text appears; the hints keep the source's order with none repeated; their number is the number of conditions that hold |
| TipCore.GenerateFilename | context/tip_for_patlibs/tip4patlibs_core.py:2312-2354 | the name starts with the prefix and the country (`XX` when unset), and ends with `_`, the timestamp, `_` and the chart name when one is given, then `.` and the extension |
| TipCore.FilenameFields | context/tip_for_patlibs/tip4patlibs_core.py:2312-2354 | splitting the name at `_` gives back prefix, country, technology tag and year range, in that order |
| CpcBuild.ShortForm | scripts/bigquery_migration/build_cpc_database.py:85-90 | the short form has no spaces, is no longer than the symbol, and keeps every other character |
| CpcBuild.SymbolToShort | scripts/bigquery_migration/build_cpc_database.py:85-90 | no contract of its own: the symbol with its spaces removed; stated by `ShortForm`, `ShortKeepsShort` and `ShortIdempotent` |
| CpcBuild.ShortKeepsShort | scripts/bigquery_migration/build_cpc_database.py:85-90 | a symbol without spaces is its own short form |
| CpcBuild.ShortIdempotent | scripts/bigquery_migration/build_cpc_database.py:85-90 | shortening twice is shortening once |
| CpcBuild.ZeropadWithoutSlash | scripts/bigquery_migration/build_cpc_database.py:93-102 | a short form without a slash is returned as it is |
| CpcBuild.ZeropadLayout | scripts/bigquery_migration/build_cpc_database.py:93-112 | for subclass, group digits and subgroup, the zero-padded form is the subclass, the group left-padded to 4 and the subgroup right-padded to 6: 14 characters |
| CpcBuild.SymbolToZeropad | scripts/bigquery_migration/build_cpc_database.py:93-112 | no contract of its own: the zero-padded form of the short form; stated by `ZeropadWithoutSlash` and `ZeropadLayout` |
| CpcBuild.DetermineKind | scripts/bigquery_migration/build_cpc_database.py:115-127 | the code of each named level, the depth below main group capped at 9, and a negative depth for other shallow levels |
| CpcBuild.KindRoundTrip | scripts/bigquery_migration/build_cpc_database.py:115-127 | up to level 16 the level can be read back from its kind code; deeper levels all get `9` |
| CpcBuild.KindDistinguishesLevels | scripts/bigquery_migration/build_cpc_database.py:115-127 | two levels up to 16 with the same kind code are equal |
| CpcBuild.RStripNewlines | scripts/bigquery_migration/build_cpc_database.py:65 | the result is a prefix of the line, does not end in a line break, and only line breaks were cut |
| CpcBuild.RemoveBraced | scripts/bigquery_migration/build_cpc_database.py:76 | the result is no longer, holds no `{` followed later by `}`, and a title without `{` is untouched |
| CpcBuild.CollapseSpaces | scripts/bigquery_migration/build_cpc_database.py:78 | every whitespace run becomes one space; text without whitespace is untouched |
| CpcBuild.CleanTitle | scripts/bigquery_migration/build_cpc_database.py:74-78 | a cleaned title is stripped and single-spaced |
| CpcBuild.ParseTitleLine | scripts/bigquery_migration/build_cpc_database.py:65-79 | a line gives an entry exactly when it holds a tab; symbol and title are stripped, and the title single-spaced |
| CpcBuild.RStripNewlinesOver | scripts/bigquery_migration/build_cpc_database.py:65 | line-break characters at the end of a line are cut off, and nothing before them |
| CpcBuild.ParseTitleFields | scripts/bigquery_migration/build_cpc_database.py:65-78 | a line of two or more tab-separated fields gives the stripped first field as symbol and the cleaned last field as title |
| CpcBuild.StripKeepsText | scripts/bigquery_migration/build_cpc_database.py:74 | stripping removes whitespace only: the other characters stay, in order |
| CpcBuild.RemoveBracedKeepsPlain | scripts/bigquery_migration/build_cpc_database.py:76 | text in front of the first `{` passes through note removal unchanged |
| CpcBuild.RemoveBracedDropsNote | scripts/bigquery_migration/build_cpc_database.py:76 | a `{…}` note with no `}` inside is removed whole, and removal goes on after it |
| CpcBuild.RemoveBracedKeepsUnclosed | scripts/bigquery_migration/build_cpc_database.py:76 | a `{` with no `}` after it is kept, with everything after it |
| CpcBuild.CollapseSpacesRun | scripts/bigquery_migration/build_cpc_database.py:78 | a whitespace run, up to the next other character, becomes one space |
| CpcBuild.CollapseSpacesKeepsWord | scripts/bigquery_migration/build_cpc_database.py:78 | text without whitespace passes through unchanged |
| CpcBuild.CollapseSpacesKeepsText | scripts/bigquery_migration/build_cpc_database.py:78 | collapsing changes whitespace only: the other characters stay, in order |
| CpcBuild.CollapseSingleSpaced | scripts/bigquery_migration/build_cpc_database.py:78 | a single-spaced text is its own collapse |
| CpcBuild.CleanTitleKeepsText | scripts/bigquery_migration/build_cpc_database.py:74-78 | the cleaned title keeps every non-whitespace character of the stripped title outside its notes, in order |
| CpcBuild.CleanTitleFixesClean | scripts/bigquery_migration/build_cpc_database.py:74-78 | a title that is already trimmed, single-spaced and free of `{` is left as it is |
| CpcBuild.TitlesFrom | scripts/bigquery_migration/build_cpc_database.py:57-82 | no contract of its own: the dictionary of the parsed lines, later lines overwriting; stated by `ExtractTitles`, `TitlesLastWins` and `TitlesOnlyNamed` |
| CpcBuild.ExtractTitles | scripts/bigquery_migration/build_cpc_database.py:57-82 | the loop builds the title map of the lines |
| CpcBuild.TitlesLastWins | scripts/bigquery_migration/build_cpc_database.py:64-79 | a symbol's title is the one from its last line |
| CpcBuild.TitlesOnlyNamed | scripts/bigquery_migration/build_cpc_database.py:64-79 | every symbol in the map, with its title, comes from some line |
| CpcBuild.LookupTitle | scripts/bigquery_migration/build_cpc_database.py:221 | the short form's title when it is non-empty, else the symbol's title when there is one, else `""`; the result is empty exactly when neither key has a non-empty title |
| CpcBuild.LatestAtLevel | scripts/bigquery_migration/build_cpc_database.py:218 | the latest symbol of a level comes from a record at that level; none means no record has that level |
| CpcBuild.LastAfterIsLatest | scripts/bigquery_migration/build_cpc_database.py:181-218 | after the records, `last_at_level` holds exactly the latest symbol of each level seen |
| CpcBuild.LastAfter | scripts/bigquery_migration/build_cpc_database.py:181-218 | no contract of its own: `last_at_level` after the records; stated by `LatestAtLevel` and `LastAfterIsLatest` |
| CpcBuild.ParentOfRow | scripts/bigquery_migration/build_cpc_database.py:194-215 | the parent of each row: `CPC` for sections, prefixes of the short form for class, subclass and main group, else the latest symbol one level up or the subclass |
| CpcBuild.RowFields | scripts/bigquery_migration/build_cpc_database.py:181-236 | each row's level, symbol formats, kind, title, flags (set exactly for `TRUE`) and status (`published` by default) |
| CpcBuild.DeriveRow | scripts/bigquery_migration/build_cpc_database.py:182-236 | no contract of its own: the row of one record; stated by `ParentOfRow` and `RowFields` |
| CpcBuild.DeriveRows | scripts/bigquery_migration/build_cpc_database.py:181-236 | one row per record |
| CpcBuild.BuildRows | scripts/bigquery_migration/build_cpc_database.py:181-246 | the batches written, in order, are exactly the rows derived from the records; every batch but the last is full, none is empty, and the count is the number of records |
| CpcUpload.ReadLookup | scripts/bigquery_migration/upload_cpc_hierarchy.py:82-118 | the loop builds the lookup of the table rows |
| CpcUpload.EntryOf | scripts/bigquery_migration/upload_cpc_hierarchy.py:105-116 | no contract of its own: the lookup entry of one table row; stated by `LookupEntry` and `FlagsRoundTrip` |
| CpcUpload.LookupFrom | scripts/bigquery_migration/upload_cpc_hierarchy.py:89-116 | no contract of its own: the lookup of the table rows, the root left out; stated by `ReadLookup`, `LookupHasEveryRow` and `LookupOnlyRows` |
| CpcUpload.LookupHasEveryRow | scripts/bigquery_migration/upload_cpc_hierarchy.py:89-116 | every row other than the root is in the lookup |
| CpcUpload.LookupOnlyRows | scripts/bigquery_migration/upload_cpc_hierarchy.py:89-116 | the lookup holds no root, and every entry comes from a row with that symbol |
| CpcUpload.LookupEntry | scripts/bigquery_migration/upload_cpc_hierarchy.py:103-116 | with distinct symbols, each row's entry is exactly its own converted row |
| CpcUpload.FlagsRoundTrip | scripts/bigquery_migration/upload_cpc_hierarchy.py:113-114 | the flags read back are true exactly when the classification scheme record said `TRUE` |
| CpcUpload.ClimbTitlesFromDeepEntries | scripts/bigquery_migration/upload_cpc_hierarchy.py:121-138 | every title in a chain is non-empty and is the title of an entry at or below the starting level |
| CpcUpload.Climb | scripts/bigquery_migration/upload_cpc_hierarchy.py:126-135 | no contract of its own: the titles met walking up from a symbol, within the levels at or below the start; stated by `ClimbTitlesFromDeepEntries` |
| CpcUpload.TitleFull | scripts/bigquery_migration/upload_cpc_hierarchy.py:121-138 | no contract of its own: the climbed titles, top first, joined by ` > `; stated by the `TitleFull…` lemmas |
| CpcUpload.BuildTitleFull | scripts/bigquery_migration/upload_cpc_hierarchy.py:121-138 | the loop computes the full title |
| CpcUpload.TitleFullAboveFromLevel | scripts/bigquery_migration/upload_cpc_hierarchy.py:121-138 | a symbol above the starting level, or unknown, gets its own title or `""` |
| CpcUpload.TitleFullExtendsParent | scripts/bigquery_migration/upload_cpc_hierarchy.py:121-138 | a titled entry's full title is its parent's full title, then ` > `, then its own title |
| CpcUpload.TitleFullSkipsUntitled | scripts/bigquery_migration/upload_cpc_hierarchy.py:121-138 | an untitled entry takes its parent's full title |
| CpcUpload.TitleFullEndsWithOwn | scripts/bigquery_migration/upload_cpc_hierarchy.py:121-138 | a titled entry's full title ends with its own title |
| CpcUpload.PrepareBigqueryRows | scripts/bigquery_migration/upload_cpc_hierarchy.py:141-174 | one row per lookup key in dictionary order, carrying its entry and full title; the two counts are the rows with a PATSTAT symbol and with a full title |
| CpcUpload.RowsCoverLookup | scripts/bigquery_migration/upload_cpc_hierarchy.py:141-166 | there are as many rows as lookup keys, and every key has exactly its row |
| AppNav.InitFillsOnlyMissing | app.py:26-56 | keys already present keep their values, missing keys get their defaults, and no other key is added |
| AppNav.Initialized | app.py:26-56 | no contract of its own: the session after `init_session_state`; stated by `InitFillsOnlyMissing`, `InitFromEmpty` and `InitIdempotent` |
| AppNav.InitFromEmpty | app.py:20-56 | a first run starts from exactly the default session |
| AppNav.InitIdempotent | app.py:26-56 | initialising twice is initialising once |
| AppNav.App.InitSessionState | app.py:26-56 | the session becomes its initialised form, without a rerun |
| AppNav.LandingResetsAllButCategory | app.py:59-74 | page, query and parameters go back to their defaults; the category and all other keys are kept |
| AppNav.LandingIdempotent | app.py:59-74 | going to the landing page twice is going once |
| AppNav.Landing | app.py:59-74 | no contract of its own: the session after `go_to_landing`; stated by `LandingResetsAllButCategory` and `LandingIdempotent` |
| AppNav.App.GoToLanding | app.py:59-74 | the session becomes its landing form, and one rerun follows |
| AppNav.DetailKeepsOthers | app.py:77-87 | opening a query changes only the page and the selected query |
| AppNav.Detail | app.py:77-87 | no contract of its own: the session after `go_to_detail` with a known query; stated by `DetailKeepsOthers` |
| AppNav.App.GoToDetail | app.py:77-87 | an unknown query changes nothing and reruns nothing; a known one opens its detail page and reruns once |
| AppNav.QueryList | app.py:264-275 | a missing or empty filter lists every query; otherwise exactly the queries of that category |
| AppNav.QueryListInOrder | app.py:270-275 | filtering keeps catalogue order: it distributes over concatenation |
| AppNav.QueryListUnique | app.py:270-275 | `QUERIES` is a dictionary, so a listed query never appears twice |
| AppNav.RouteDetailNeedsQuery | app.py:490-501 | the detail page is shown only when the session says detail and holds a selected query |
| AppNav.RouteRepairsDetail | app.py:490-497 | a detail page without a query falls back to landing, and only the page key changes |
| AppNav.RouteStable | app.py:490-501 | routing the repaired session again gives the same page and session |
| AppNav.Route | app.py:490-501 | the detail page is chosen only for a selected query, with the session left as it is; after a landing decision the session no longer says detail |
| AppNav.DetailThenRoute | app.py:474-501 | after opening a query, the next run shows its detail page |
| AppNav.LandingThenRoute | app.py:474-501 | after going to landing, the next run shows the landing page |
| AppNav.App.Run | app.py:474-501 | a run initialises the session; it stops without a client and otherwise routes the initialised session |

## Left out

- Streamlit, ipywidgets and notebook rendering: layout, display flags, option lists, styling and
  `st.info`/`st.button`/`st.stop`. Widgets are modelled only by the values the core reads and writes.
- ipywidgets observers. In the source, setting a widget's value inside a callback (as the reset
  handler does) can trigger that widget's own callback. The model runs each callback once, with
  no nested observers.
- The jurisdiction and region callbacks and their database lookups. The region cascade needs the
  reference database, which is not part of this model.
- All I/O and external services: the zip archive, CSV and SQLite reading, SQLite writes (each
  batch is returned as a value), BigQuery client creation, upload and schema.
  - Client availability is a parameter of `AppNav.App.Run`.
  - The export timestamp is a parameter of `TipCore.GenerateFilename`.
  - The query catalogue (`QUERIES`) is a constructor parameter of `AppNav.App`.
- Text is handled as ASCII. `\w`, `\d`, `str.upper` and `re.IGNORECASE` are modelled on ASCII
  letters and digits only. `str.isspace` and `\s` use the exact set of Python whitespace
  characters.
- `int()` conversion of the level read from the CSV: records carry integer levels.
- SqlUtils.FormattedYearStart and the other `Formatted…` lemmas each describe a query in which
  only their own placeholder occurs: the text around it holds no other `@` and no backtick. A
  query that mixes placeholders is described by `FormattedSql`, step by step, and not by one
  closed form.
- SqlUtils.FormatSqlForTip requires `ListsLiteral`: no jurisdiction or competitor value contains
  a backslash. `re.sub` reads backslashes in its replacement as escapes, and this model does not
  interpret that template language.
- SqlUtils.SubstituteYearsAndField: the year and field placeholders are modelled as integers,
  as the app supplies them. `str()` of any other type is not modelled.
- TipCore.TruncateName: the contract says nothing about a limit below 3. There the function
  follows Python's negative slicing; the only caller uses 30.
- TipCore.ValidateIpcCodes: the contract does not fix the wording of each feedback message.
- TipCore.WidgetFactory.OnResetClick: the individual widget resets (dropdown options, display
  flags) are not modelled. Only the state, the IPC feedback value, the tip and the review
  widgets are.
- CpcBuild.BuildRows requires every class-level record (level 4) to have a non-blank symbol. In
  the source, a blank one raises `IndexError` on `symbol_short[0]`.
- CpcUpload.BuildTitleFull and CpcUpload.TitleFull require `ParentsAscend`: each parent at or
  below the starting level sits at a shallower level. On a parent cycle the source loops
  forever.
- CpcUpload.PrepareBigqueryRows takes the dictionary's iteration order as a parameter that lists
  every key once.
- CpcUpload.LookupEntry requires distinct symbols, which the table's primary key guarantees.
  Without that, `LookupOnlyRows` still holds, and the last row with a symbol wins.
- AppNav.DetailThenRoute requires a non-empty query id. An empty id is falsy, so routing falls
  back to landing, as `RouteRepairsDetail` states.
- `st.rerun()` is modelled as a ghost counter. The rest of the run it aborts is not modelled.
