# Wikilog query filters in Dafny

This project models the query-filter compiler of the Wikilog MediaWiki
extension (`WikilogQuery.php`). The module holds three classes:

- `WikilogQuery` is the shared base. It keeps an option store backed by
  declared defaults and an "always empty" flag, and it turns a partial
  calendar date into a half-open 14-digit timestamp interval
  (`partialDateToInterval`).
- `WikilogItemQuery` filters wikilog articles by wikilog or namespace,
  publish status, category, author, tag and publication date.
- `WikilogCommentQuery` filters comments by moderation status, by article,
  wikilog or namespace, by thread, author and date.

Each filter class compiles its state in two ways. `getQueryInfo` returns a
query descriptor: tables, fields, conditions, options and join conditions,
as `Database::select` takes them. `getDefaultQuery` returns the request
parameters of a navigation link, from which a special page rebuilds the same
filter.

The Dafny modules follow that structure:

- `Wrappers`: `Option`, `Result` and `Outcome` (an exception or normal return).
- `Php`: PHP string truthiness, `str_pad`, `implode`, decimal strings and
  their numeric value.
- `Externals`: the MediaWiki objects the queries read (titles, articles,
  wikilog information) and the static lookups they call, supplied as
  functions.
- `Sql`: the query descriptor. The database layer's quoting and `LIKE`
  builders are kept as symbolic expressions.
- `QueryBase`: the class `WikilogQuery` and the option semantics.
- `DateInterval`: `partialDateToInterval`, the specification function
  `ResolveDate`, and the interval lemmas.
- `Filters`: the pieces the two query classes share (author setter, date
  conditions, link-parameter arrays).
- `ItemQueries` and `CommentQueries`: the two classes. Each has a filter
  state datatype, a specification function for each compiled output
  (`ItemQueryInfo`, `ItemParams`, `CommentQueryInfo`, `CommentParams`),
  methods that build those outputs step by step as the source does, and
  lemmas about the specification functions.

In PHP both classes extend `WikilogQuery`; the Dafny classes instead hold
their `WikilogQuery` as a field `base`. An unset filter (`false` or `null`
in PHP) is `None`. The namespace filter is the exception: the source tests
it with `!== false`, and a `null` namespace is not modelled (see
"## Left out").

Three behaviours of the code are worth stating outright:

- A new item query starts with publish status "all" (`PS_ALL`,
  WikilogQuery.php:174), not "published".
- Reading an option that has neither an override nor a declared default
  yields `null` (WikilogQuery.php:65-69): PHP raises only an
  undefined-index notice, not an error.
- `partialDateToInterval` for the year 9999 alone gives
  `("99990000000000", "10000000000000")` (WikilogQuery.php:129, 141-142).
  That interval ends before it starts (the "Y10k bug" the source comments
  on), so `start < end` is proved for every other valid date
  (`Y10kInterval`, `IntervalOrdered`).

## Model

| member | source | states |
|---|---|---|
| QueryBase.OptionValue | WikilogQuery.php:65-69 | an override counts only when it is set and not null; otherwise the declared default; null only when neither gives a value |
| QueryBase.WikilogQuery.constructor | WikilogQuery.php:41-58 | no overrides, the given defaults, not empty |
| QueryBase.WikilogQuery.SetOption | WikilogQuery.php:76-78 | stores the override for one key and nothing else; a non-null value is what `getOption` then returns |
| QueryBase.WikilogQuery.SetOptions | WikilogQuery.php:84-92 | a name becomes true, an array is merged in, null changes nothing, any other value throws and changes nothing |
| QueryBase.MergeLastWins | WikilogQuery.php:88 | after `array_merge` a key holds the value of its last entry |
| QueryBase.MergeKeeps | WikilogQuery.php:88 | a key no entry names keeps its override, or stays absent |
| QueryBase.WikilogQuery.SetEmpty | WikilogQuery.php:97 | sets the empty flag, options untouched |
| DateInterval.ResolveDate | WikilogQuery.php:128-156 | no interval iff neither year (1..9999) nor month (1..12) is usable; a missing year is the current one, or the previous one for a month still to come; month and day are kept iff in range; the ends are `Interval` of the stored date, 14 characters each, and start < end except for the year-only 9999 case |
| DateInterval.PartialDateToInterval | WikilogQuery.php:128-156 | the by-reference outputs are the normalised year, month and day, and the returned interval is the one `ResolveDate` describes, or false exactly when it is None |
| DateInterval.BuildInterval | WikilogQuery.php:141-155 | the strings built by reassigning start and end equal `Interval` |
| DateInterval.Interval | WikilogQuery.php:141-155 | both ends are 14 digits |
| DateInterval.PrefixFacts | WikilogQuery.php:141-150 | the start prefix has 4, 6 or 8 digits and reads the year, year-month or year-month-day; the end prefix reads one more, except for year 9999 alone |
| DateInterval.IntervalValues | WikilogQuery.php:141-155 | as numbers, start is the unit shifted to 14 digits and end is start plus one unit |
| DateInterval.IntervalContains | WikilogQuery.php:141-155 | a 14-digit timestamp lies in [start, end) iff its leading year, year-month or year-month-day digits are the requested ones |
| DateInterval.IntervalOrdered | WikilogQuery.php:141-155 | start < end as numbers and as strings, for every valid date but the year-only 9999 |
| DateInterval.Y10kInterval | WikilogQuery.php:129-155 | the year-only 9999 interval is ("99990000000000", "10000000000000") and ends before it starts |
| DateInterval.ResolveDateIdempotent | WikilogQuery.php:129-139 | feeding a stored date back in, with a possibly different current date, stores the same date |
| Filters.AddTextEntry | WikilogQuery.php:418-424 | an author or tag parameter is written iff it is set and truthy |
| Filters.AddDateEntries | WikilogQuery.php:426-430 | a date filter writes year, month and day (false for a missing month or day), in that order |
| Filters.AddDateConds | WikilogQuery.php:368-371 | a date filter appends `column >= start` and `column < end` |
| ItemQueries.ParsePubStatusText | WikilogQuery.php:447-455 | "all"/"any" give all, "draft"/"drafts" give drafts, every other text gives published, each as an iff |
| ItemQueries.ItemBaseConditions | WikilogQuery.php:323-330 | redirects are always excluded; `0=1` is present iff the query is forced empty |
| ItemQueries.ItemCondsShape | WikilogQuery.php:323-371 | `0=1` comes only from the empty flag, `wlp_publish` only from the publish status, `wlp_parent`/`p.page_namespace` only from the scope |
| ItemQueries.ItemScopePrecedence | WikilogQuery.php:332-337 | a wikilog title gives `wlp_parent` and no namespace key; else a namespace gives `p.page_namespace` and no parent key; else neither key |
| ItemQueries.ItemPublishCondition | WikilogQuery.php:339-344 | `wlp_publish = 1` iff published, `= 0` iff drafts, no `wlp_publish` key iff any other status |
| ItemQueries.ItemJoinFilterAddsOne | WikilogQuery.php:346-365 | an active category, author or tag filter adds exactly its table, its JOIN and its keyed condition to the descriptor without it, and changes no field or option |
| ItemQueries.ItemDateAddsWindow | WikilogQuery.php:367-371 | a date filter adds exactly the two `wlp_pubdate` conditions and nothing else |
| ItemQueries.ItemLastCommentAggregate | WikilogQuery.php:373-383 | the option adds the comments table, the MAX aggregate field, the LEFT JOIN and the GROUP BY (the page key or the item fields, by database); without it there are no options |
| ItemQueries.ItemParamsLookup | WikilogQuery.php:399-433 | every link parameter holds its reference value (`ItemParam`): wikilog or namespace wildcard, show, category, author, tag, date |
| ItemQueries.ItemShowRoundTrip | WikilogQuery.php:408-412 | feeding "show" back into `setPubStatus` restores all, published and drafts |
| ItemQueries.ItemShowLossy | WikilogQuery.php:222-228 | an integer status outside the three constants filters like "all" but reads back from its link as published |
| ItemQueries.ItemDateRoundTrip | WikilogQuery.php:426-430 | feeding year, month and day back into `setDate` stores the same date |
| ItemQueries.CompileBaseConds | WikilogQuery.php:323-344 | the redirect, empty, scope and publish conditions, in source order |
| ItemQueries.CompileJoinFilter | WikilogQuery.php:346-365 | one join filter appends its table and condition and sets its JOIN when active, and changes nothing otherwise |
| ItemQueries.CompileItemQuery | WikilogQuery.php:319-391 | the descriptor built step by step equals `ItemQueryInfo` |
| ItemQueries.DefaultItemQuery | WikilogQuery.php:400-432 | the parameter array built step by step equals `ItemParams`, so every key holds its reference value |
| ItemQueries.WikilogItemQuery.constructor | WikilogQuery.php:192-200 | no filters, status all, wikilog title as given, wikilog parameter needed iff no title |
| ItemQueries.WikilogItemQuery.SetWikilogTitle | WikilogQuery.php:206-208 | changes the wikilog title only |
| ItemQueries.WikilogItemQuery.SetNamespace | WikilogQuery.php:214-216 | stores the namespace (an integer or `false`) and changes nothing else |
| ItemQueries.WikilogItemQuery.SetPubStatus | WikilogQuery.php:222-229 | null gives published, text is parsed, an integer is kept; never fails |
| ItemQueries.WikilogItemQuery.SetCategory | WikilogQuery.php:235-244 | a title is stored; a text is stored as a category title when it makes one, else nothing changes |
| ItemQueries.WikilogItemQuery.SetAuthor | WikilogQuery.php:250-259 | a text that makes a user title becomes its canonical name (possibly false); otherwise the author is kept |
| ItemQueries.WikilogItemQuery.SetTag | WikilogQuery.php:265-270 | the tag is stored only when tags are enabled |
| ItemQueries.WikilogItemQuery.SetDate | WikilogQuery.php:280-292 | the date filter becomes the resolved date, or is kept when the date does not resolve |
| ItemQueries.WikilogItemQuery.IsSingleWikilog | WikilogQuery.php:435-441 | true iff the descriptor restricts `wlp_parent` (one wikilog), whatever the options and database |
| ItemQueries.ItemSingleWikilog | WikilogQuery.php:332-337 | a wikilog title is set iff the conditions key `wlp_parent`, and then there is no `p.page_namespace` key |
| ItemQueries.WikilogItemQuery.GetQueryInfo | WikilogQuery.php:316-392 | applies the options as `setOptions` does and fails when it throws; otherwise returns `ItemQueryInfo` of the filter state and the last-comment option |
| ItemQueries.WikilogItemQuery.GetDefaultQuery | WikilogQuery.php:399-433 | returns `ItemParams` of the filter state |
| CommentQueries.ParseModStatus | WikilogQuery.php:533-541 | null gives all; a text is accepted iff it is one of the five statuses and is kept as given; anything else is an invalid-status error |
| CommentQueries.ResolveRef | WikilogQuery.php:509-527 | an article scopes to itself; wikilog information scopes to its wikilog, or to its article when it describes one; a title goes through its wikilog information; anything else, or a failed lookup, is an error |
| CommentQueries.CommentCondsShape | WikilogQuery.php:661-699 | every keyed condition is on one of five columns; status tests come only from the moderation status, the `LIKE` only from the scope |
| CommentQueries.CommentStatusCondition | WikilogQuery.php:666-675 | each status gives its one `wlc_status` condition iff it is that status; no `wlc_status` key iff not accepted or pending |
| CommentQueries.CommentScopePrecedence | WikilogQuery.php:677-711 | article over wikilog over namespace, each excluding the other keys; without include-item a wikilog scope adds the articles table and JOIN, an article scope adds neither |
| CommentQueries.CommentThreadOnlyWithItem | WikilogQuery.php:678-682 | the thread `LIKE 'thread/%'` is present iff an article is set and the thread is truthy |
| CommentQueries.CommentIncludeItem | WikilogQuery.php:701-711 | include-item appends the article tables and fields, sets the articles JOIN, and keeps the comment join on a shared key; conditions unchanged |
| CommentQueries.CommentDateAddsWindow | WikilogQuery.php:695-699 | a date filter adds exactly the two `wlc_timestamp` conditions and nothing else |
| CommentQueries.CommentEmptyCondition | WikilogQuery.php:661-664 | `0=1` is present iff the query is forced empty |
| CommentQueries.CommentParamsLookup | WikilogQuery.php:727-753 | every link parameter holds its reference value (`CommentParam`) |
| CommentQueries.CommentShowRoundTrip | WikilogQuery.php:738-740 | feeding "show" back into `setModStatus` restores each of the five statuses |
| CommentQueries.CommentLinkPrecedence | WikilogQuery.php:730-736 | an article's link names the article and never the wikilog |
| CommentQueries.CompileCommentConds | WikilogQuery.php:657-699 | the conditions built step by step equal `CommentConds` |
| CommentQueries.AddStatusConds | WikilogQuery.php:666-675 | appends the moderation-status condition |
| CommentQueries.AddScopeConds | WikilogQuery.php:677-688 | appends the article (and thread), wikilog or namespace condition |
| CommentQueries.CompileCommentQuery | WikilogQuery.php:651-719 | the descriptor built step by step equals `CommentQueryInfo` |
| CommentQueries.DefaultCommentQuery | WikilogQuery.php:728-752 | the parameter array built step by step equals `CommentParams` |
| CommentQueries.WikilogCommentQuery.constructor | WikilogQuery.php:478-491 | status all, no other filter, the include-item default |
| CommentQueries.WikilogCommentQuery.Create | WikilogQuery.php:497-503 | a fresh query with no option overrides (`$mOptions` starts empty); without a reference no scope; with one, scoped as `ResolveRef` says, or the construction throws |
| CommentQueries.WikilogCommentQuery.SetWikilogOrItem | WikilogQuery.php:509-527 | sets the wikilog or the article `ResolveRef` designates; on error throws and changes nothing |
| CommentQueries.WikilogCommentQuery.SetModStatus | WikilogQuery.php:533-541 | stores the parsed status, or throws and changes nothing |
| CommentQueries.WikilogCommentQuery.SetNamespace | WikilogQuery.php:549-551 | stores the namespace (an integer or `false`) and changes nothing else |
| CommentQueries.WikilogCommentQuery.SetWikilog | WikilogQuery.php:559-561 | changes the wikilog only |
| CommentQueries.WikilogCommentQuery.SetItem | WikilogQuery.php:571-576 | an article is stored; a title is looked up by page id, unchecked |
| CommentQueries.WikilogCommentQuery.SetThread | WikilogQuery.php:584-589 | a list of segments is joined with "/", a text is stored as is |
| CommentQueries.WikilogCommentQuery.SetAuthor | WikilogQuery.php:595-604 | as for items: canonical name of a valid user title, else unchanged |
| CommentQueries.WikilogCommentQuery.SetDate | WikilogQuery.php:614-626 | the date filter becomes the resolved date, or is kept |
| CommentQueries.WikilogCommentQuery.GetQueryInfo | WikilogQuery.php:648-720 | applies the options and fails when `setOptions` throws; otherwise returns `CommentQueryInfo` of the state and the include-item option |
| CommentQueries.WikilogCommentQuery.GetDefaultQuery | WikilogQuery.php:727-753 | returns `CommentParams` of the filter state |

## Left out

- `WikilogHooks.php` and `WlFeed.php` are not part of this model. They use the query classes but hold no query logic.
- The accessors `getEmpty`, `getWikilogTitle` … `getDate` (WikilogQuery.php:297-303, 631-637) are plain field reads. In the model they are the class fields and the `Filter()` function, without rows of their own.
- Object arguments for `setAuthor` (a user title object, stored as is) are not modelled. Only text and null are. The source then compares and outputs the object via its string form, which the model has no counterpart for.
- Loose PHP comparisons are not modelled. `in_array` and `==` on the moderation status treat non-string arguments (before PHP 8 an integer 0 equals "all"). The model takes the status as a text or null.
- The `tables` and `fields` arrays of `getQueryInfo` are plain lists (WikilogQuery.php:704, 707). For integer keys this matches `array_merge`, which appends and renumbers. String-keyed table aliases are not modelled, such as the `p` that `p.page_is_redirect` (WikilogQuery.php:323) and `c.page_namespace` (WikilogQuery.php:687) refer to. Neither is the `array_merge` rule that a later alias under the same key replaces an earlier one. Join conditions are a map, so the order of their keys is not modelled either.
- The condition array is an ordered list. Each keyed column is assigned at most once by the source, so a keyed assignment is an append.
- The database layer is not modelled. `addQuotes`, `timestamp` and `buildLike` are symbolic expressions. `WikilogItem::selectTables`/`selectFields`, `WikilogComment::selectTables`/`selectFields` and `implicitGroupby` are inputs.
- The clock (`gmdate('Y')`, `gmdate('n')`) is a `Today` parameter, assumed to be a valid year 1..9999 and month 1..12.
- `$wgWikilogEnableTags` is a constructor parameter.
- PHP `false` for the year, month and day of `setDate` is 0. Any non-positive value behaves the same in the source.
- Exceptions are `Result`/`Outcome` values. Nothing is thrown.
- ItemQueries.WikilogItemQuery.SetNamespace: takes an integer or `false` (`None`); a `null` argument is not modelled. The source tests the namespace with `!== false` (WikilogQuery.php:335, 404), so after `setNamespace(null)` it adds a `p.page_namespace = NULL` condition that matches no page and writes a wildcard "wikilog" link. The model has no such state.
- CommentQueries.WikilogCommentQuery.SetNamespace: likewise takes an integer or `false` only. After `setNamespace(null)` the source adds `c.page_namespace = NULL` and a wildcard link (WikilogQuery.php:686, 734).
- DateInterval.ResolveDateIdempotent: stated for a stored year of at least 1. A year 0 can only come from a current date in year 1, and fed back it would fall outside the accepted year range.
