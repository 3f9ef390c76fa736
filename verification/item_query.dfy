/** `WikilogItemQuery`: filters on wikilog articles (wikilog or namespace,
    publish status, category, author, tag, publication date), compiled into
    a query descriptor and into navigation-link parameters. */
module ItemQueries {
  import opened Wrappers
  import opened Php
  import opened Externals
  import opened Sql
  import opened DateInterval
  import opened QueryBase
  import opened Filters

  /** Publish-status filter values (`PS_*`). */
  const PsAll: int := 0
  const PsPublished: int := 1
  const PsDrafts: int := 2

  /** The one option an item query declares, and its default. */
  const LastCommentTimestamp: string := "last-comment-timestamp"
  const ItemDefaults: map<string, OptValue> := map[LastCommentTimestamp := Bool(false)]

  /** The argument of `setPubStatus`: null, a string or an integer. */
  datatype PubStatusArg = StatusNull | StatusText(text: string) | StatusInt(n: int)

  /** The argument of `setCategory`: a title object, a text, or anything else. */
  datatype CategoryArg = CategoryTitle(title: Title) | CategoryText(text: string) | CategoryOther

  /** The filter state of an item query, its own fields and the inherited
      "empty" flag. */
  datatype ItemFilter = ItemFilter(
    wikilogTitle: Option<Title>,
    namespace: Option<int>,
    pubStatus: int,
    category: Option<Title>,
    author: Option<string>,
    tag: Option<string>,
    date: Option<DateSpec>,
    needWikilogParam: bool,
    empty: bool)

  /** `parsePubStatusText($show)` */
  function ParsePubStatusText(show: string): (ps: int)
    ensures ps == PsAll <==> show == "all" || show == "any"
    ensures ps == PsDrafts <==> show == "draft" || show == "drafts"
    ensures ps == PsPublished <==> show != "all" && show != "any" && show != "draft" && show != "drafts"
  {
    if show == "all" || show == "any" then PsAll
    else if show == "draft" || show == "drafts" then PsDrafts
    else PsPublished
  }

  // ---------------------------------------------------------------------
  // The descriptor of `getQueryInfo`, part by part.

  /** Wikilog filter, else namespace filter. */
  function ItemScopeConds(f: ItemFilter): seq<Cond> {
    if f.wikilogTitle.Some? then [Eq("wlp_parent", IntVal(f.wikilogTitle.value.articleId))]
    else if f.namespace.Some? then [Eq("p.page_namespace", IntVal(f.namespace.value))]
    else []
  }

  function PublishConds(pubStatus: int): seq<Cond> {
    if pubStatus == PsPublished then [Eq("wlp_publish", IntVal(1))]
    else if pubStatus == PsDrafts then [Eq("wlp_publish", IntVal(0))]
    else []
  }

  /** The conditions up to and including the publish status. */
  function BaseConds(f: ItemFilter): seq<Cond> {
    [Eq("p.page_is_redirect", IntVal(0))]
    + (if f.empty then [AlwaysFalse] else [])
    + ItemScopeConds(f)
    + PublishConds(f.pubStatus)
  }

  /** The three filters that join one more table. */
  datatype JoinFilter = ByCategory | ByAuthor | ByTag

  function JoinTable(j: JoinFilter): string {
    match j
    case ByCategory => "categorylinks"
    case ByAuthor => "wikilog_authors"
    case ByTag => "wikilog_tags"
  }

  function JoinOn(j: JoinFilter): JoinCond {
    match j
    case ByCategory => JoinCond("JOIN", "wlp_page = cl_from")
    case ByAuthor => JoinCond("JOIN", "wlp_page = wla_page")
    case ByTag => JoinCond("JOIN", "wlp_page = wlt_page")
  }

  function Active(f: ItemFilter, j: JoinFilter): bool {
    match j
    case ByCategory => f.category.Some?
    case ByAuthor => HasText(f.author)
    case ByTag => HasText(f.tag)
  }

  function JoinCondOf(f: ItemFilter, j: JoinFilter): Cond
    requires Active(f, j)
  {
    match j
    case ByCategory => Eq("cl_to", StrVal(f.category.value.dbKey))
    case ByAuthor => Eq("wla_author_text", StrVal(f.author.value))
    case ByTag => Eq("wlt_tag", StrVal(f.tag.value))
  }

  function JoinTables(f: ItemFilter, j: JoinFilter): seq<string> {
    if Active(f, j) then [JoinTable(j)] else []
  }

  /** `$q_joins[table] = array( 'JOIN', on )` when the filter is active. */
  function WithJoin(joins: map<string, JoinCond>, f: ItemFilter, j: JoinFilter): map<string, JoinCond> {
    if Active(f, j) then joins[JoinTable(j) := JoinOn(j)] else joins
  }

  function JoinFilterConds(f: ItemFilter, j: JoinFilter): seq<Cond> {
    if Active(f, j) then [JoinCondOf(f, j)] else []
  }

  const LastCommentField: string := "MAX(wlc_updated) AS _wlp_last_comment_timestamp"
  const CommentsJoin: JoinCond := JoinCond("LEFT JOIN", "wlp_page = wlc_post")

  /** The GROUP BY the last-comment aggregate needs: the article key alone
      where the database groups implicitly, else every selected item field. */
  function GroupBy(db: Db): SqlOption {
    if db.implicitGroupby then Column("wlp_page") else Columns(db.itemGroupbyFields)
  }

  /** The conditions of the three join filters, in order. */
  function AllJoinFilterConds(f: ItemFilter): seq<Cond> {
    JoinFilterConds(f, ByCategory) + JoinFilterConds(f, ByAuthor) + JoinFilterConds(f, ByTag)
  }

  /** The tables of the three join filters, in order. */
  function AllJoinTables(f: ItemFilter): seq<string> {
    JoinTables(f, ByCategory) + JoinTables(f, ByAuthor) + JoinTables(f, ByTag)
  }

  /** The conditions: base, join filters, date window. */
  function ItemConds(f: ItemFilter): seq<Cond> {
    BaseConds(f) + AllJoinFilterConds(f) + DateConds("wlp_pubdate", f.date)
  }

  /** The descriptor `getQueryInfo` returns for a filter state, given whether
      the "last-comment-timestamp" option is on. */
  function ItemQueryInfo(f: ItemFilter, lastComment: bool, db: Db): QueryInfo {
    QueryInfo(
      db.itemTables + AllJoinTables(f) + (if lastComment then ["wikilog_comments"] else []),
      db.itemFields + (if lastComment then [LastCommentField] else []),
      ItemConds(f),
      if lastComment then map["GROUP BY" := GroupBy(db)] else map[],
      var joins := WithJoin(WithJoin(WithJoin(db.itemJoins, f, ByCategory), f, ByAuthor), f, ByTag);
      if lastComment then joins["wikilog_comments" := CommentsJoin] else joins)
  }

  // ---------------------------------------------------------------------
  // What the descriptor promises.

  /** Redirects are always excluded, and the forced-empty flag adds the
      unsatisfiable `0=1` exactly when it is set. */
  lemma ItemBaseConditions(f: ItemFilter, lastComment: bool, db: Db)
    ensures Eq("p.page_is_redirect", IntVal(0)) in ItemQueryInfo(f, lastComment, db).conds
    ensures AlwaysFalse in ItemQueryInfo(f, lastComment, db).conds <==> f.empty
  {
    var c := ItemConds(f);
    assert c == BaseConds(f) + (AllJoinFilterConds(f) + DateConds("wlp_pubdate", f.date));
    assert c[0] == Eq("p.page_is_redirect", IntVal(0));
    if f.empty {
      assert c[1] == AlwaysFalse;
    } else if AlwaysFalse in c {
      ItemCondsShape(f, AlwaysFalse);
    }
  }


  /** Where each condition comes from, by its column. */
  lemma ItemCondsShape(f: ItemFilter, c: Cond)
    requires c in ItemConds(f)
    ensures c == AlwaysFalse ==> f.empty
    ensures c.Eq? && c.column == "wlp_publish" ==> c in PublishConds(f.pubStatus)
    ensures c.Eq? && (c.column == "wlp_parent" || c.column == "p.page_namespace") ==> c in ItemScopeConds(f)
  {
    if c !in BaseConds(f) {
      assert c in AllJoinFilterConds(f) || c in DateConds("wlp_pubdate", f.date);
    }
  }

  /** A wikilog title takes precedence over the namespace; with neither,
      no scope condition is added. */
  lemma ItemScopePrecedence(f: ItemFilter, lastComment: bool, db: Db)
    ensures var keys := Keys(ItemQueryInfo(f, lastComment, db).conds);
      && (f.wikilogTitle.Some? ==>
            Eq("wlp_parent", IntVal(f.wikilogTitle.value.articleId)) in ItemQueryInfo(f, lastComment, db).conds
            && "p.page_namespace" !in keys)
      && (f.wikilogTitle.None? && f.namespace.Some? ==>
            Eq("p.page_namespace", IntVal(f.namespace.value)) in ItemQueryInfo(f, lastComment, db).conds
            && "wlp_parent" !in keys)
      && (f.wikilogTitle.None? && f.namespace.None? ==> "wlp_parent" !in keys && "p.page_namespace" !in keys)
  {
    ScopeCondsExact(f);
    ScopeKeys(f, ItemConds(f));
  }

  /** A query is limited to a single wikilog exactly when it carries the
      `wlp_parent` condition, and then it carries no namespace condition. */
  lemma ItemSingleWikilog(f: ItemFilter, lastComment: bool, db: Db)
    ensures f.wikilogTitle.Some? <==> "wlp_parent" in Keys(ItemQueryInfo(f, lastComment, db).conds)
    ensures f.wikilogTitle.Some? ==> "p.page_namespace" !in Keys(ItemQueryInfo(f, lastComment, db).conds)
  {
    ItemScopePrecedence(f, lastComment, db);
    if f.wikilogTitle.Some? {
      var c := Eq("wlp_parent", IntVal(f.wikilogTitle.value.articleId));
      assert c in ItemQueryInfo(f, lastComment, db).conds && c.Eq?;
    }
  }

  /** The same, for every option value and database at once. */
  lemma ItemSingleWikilogAll(f: ItemFilter)
    ensures forall lastComment, db :: f.wikilogTitle.Some? <==> "wlp_parent" in Keys(ItemQueryInfo(f, lastComment, db).conds)
  {
    forall lastComment: bool, db: Db
      ensures f.wikilogTitle.Some? <==> "wlp_parent" in Keys(ItemQueryInfo(f, lastComment, db).conds)
    {
      ItemSingleWikilog(f, lastComment, db);
    }
  }

  /** The scope conditions are among the conditions, and no other condition
      tests `wlp_parent` or `p.page_namespace`. */
  lemma ScopeCondsExact(f: ItemFilter)
    ensures forall x | x in ItemScopeConds(f) :: x in ItemConds(f)
    ensures forall x | x in ItemConds(f) && x.Eq? && (x.column == "wlp_parent" || x.column == "p.page_namespace")
      :: x in ItemScopeConds(f)
  {
    forall x | x in ItemConds(f) && x.Eq? && (x.column == "wlp_parent" || x.column == "p.page_namespace")
      ensures x in ItemScopeConds(f)
    {
      ItemCondsShape(f, x);
    }
    forall x | x in ItemScopeConds(f) ensures x in ItemConds(f) {
      assert x in BaseConds(f);
    }
  }

  /** The scope keys of any condition list that holds the scope conditions
      and no other `wlp_parent` or `p.page_namespace` equality. */
  lemma ScopeKeys(f: ItemFilter, c: seq<Cond>)
    requires forall x | x in ItemScopeConds(f) :: x in c
    requires forall x | x in c && x.Eq? && (x.column == "wlp_parent" || x.column == "p.page_namespace")
      :: x in ItemScopeConds(f)
    ensures f.wikilogTitle.Some? ==>
      Eq("wlp_parent", IntVal(f.wikilogTitle.value.articleId)) in c && "p.page_namespace" !in Keys(c)
    ensures f.wikilogTitle.None? && f.namespace.Some? ==>
      Eq("p.page_namespace", IntVal(f.namespace.value)) in c && "wlp_parent" !in Keys(c)
    ensures f.wikilogTitle.None? && f.namespace.None? ==> "wlp_parent" !in Keys(c) && "p.page_namespace" !in Keys(c)
  {
    if f.wikilogTitle.Some? {
      assert ItemScopeConds(f)[0] in c;
      NotKey(c, "p.page_namespace");
    } else if f.namespace.Some? {
      assert ItemScopeConds(f)[0] in c;
      NotKey(c, "wlp_parent");
    } else {
      NotKey(c, "wlp_parent");
      NotKey(c, "p.page_namespace");
    }
  }

  /** `wlp_publish` is 1 for published, 0 for drafts, and absent otherwise. */
  lemma ItemPublishCondition(f: ItemFilter, lastComment: bool, db: Db)
    ensures var c := ItemQueryInfo(f, lastComment, db).conds;
      && (f.pubStatus == PsPublished <==> Eq("wlp_publish", IntVal(1)) in c)
      && (f.pubStatus == PsDrafts <==> Eq("wlp_publish", IntVal(0)) in c)
      && (f.pubStatus != PsPublished && f.pubStatus != PsDrafts <==> "wlp_publish" !in Keys(c))
  {
    forall x | x in ItemConds(f) && x.Eq? && x.column == "wlp_publish" ensures x in PublishConds(f.pubStatus) {
      ItemCondsShape(f, x);
    }
    forall x | x in PublishConds(f.pubStatus) ensures x in ItemConds(f) {
      assert x in BaseConds(f);
    }
    PublishKeys(f.pubStatus, ItemConds(f));
  }

  /** The publish keys of any condition list that holds the publish
      conditions and no other `wlp_publish` equality. */
  lemma PublishKeys(pubStatus: int, c: seq<Cond>)
    requires forall x | x in PublishConds(pubStatus) :: x in c
    requires forall x | x in c && x.Eq? && x.column == "wlp_publish" :: x in PublishConds(pubStatus)
    ensures pubStatus == PsPublished <==> Eq("wlp_publish", IntVal(1)) in c
    ensures pubStatus == PsDrafts <==> Eq("wlp_publish", IntVal(0)) in c
    ensures pubStatus != PsPublished && pubStatus != PsDrafts <==> "wlp_publish" !in Keys(c)
  {
    if pubStatus == PsPublished || pubStatus == PsDrafts {
      assert PublishConds(pubStatus)[0] in c;
    } else {
      NotKey(c, "wlp_publish");
    }
  }

  /** The filter state with one of the join filters cleared. */
  function Without(f: ItemFilter, j: JoinFilter): ItemFilter {
    match j
    case ByCategory => f.(category := None)
    case ByAuthor => f.(author := None)
    case ByTag => f.(tag := None)
  }

  /** Clearing one join filter leaves the other two as they were. */
  lemma WithoutPieces(f: ItemFilter, j: JoinFilter, k: JoinFilter)
    ensures var g := Without(f, j);
      && (k == j ==> !Active(g, k))
      && (k != j ==> Active(g, k) == Active(f, k) && JoinTables(g, k) == JoinTables(f, k)
                     && JoinFilterConds(g, k) == JoinFilterConds(f, k))
  {
  }

  /** Two updates of different keys commute. */
  lemma UpdatesCommute(m: map<string, JoinCond>, k1: string, v1: JoinCond, k2: string, v2: JoinCond)
    requires k1 != k2
    ensures m[k1 := v1][k2 := v2] == m[k2 := v2][k1 := v1]
  {
  }

  /** The joins of the three filters: the active filter's JOIN added last
      to the joins of the state without it. */
  lemma JoinsWithout(f: ItemFilter, j: JoinFilter, m: map<string, JoinCond>)
    requires Active(f, j)
    ensures var g := Without(f, j);
      WithJoin(WithJoin(WithJoin(m, f, ByCategory), f, ByAuthor), f, ByTag)
        == WithJoin(WithJoin(WithJoin(m, g, ByCategory), g, ByAuthor), g, ByTag)[JoinTable(j) := JoinOn(j)]
  {
    var g := Without(f, j);
    WithoutPieces(f, j, ByCategory);
    WithoutPieces(f, j, ByAuthor);
    WithoutPieces(f, j, ByTag);
    var cat, auth, tag := JoinOn(ByCategory), JoinOn(ByAuthor), JoinOn(ByTag);
    match j {
      case ByCategory =>
        var m1 := WithJoin(m, f, ByCategory);
        assert m1 == m["categorylinks" := cat];
        if Active(f, ByAuthor) {
          UpdatesCommute(m, "categorylinks", cat, "wikilog_authors", auth);
          if Active(f, ByTag) {
            UpdatesCommute(m["wikilog_authors" := auth], "categorylinks", cat, "wikilog_tags", tag);
          }
        } else if Active(f, ByTag) {
          UpdatesCommute(m, "categorylinks", cat, "wikilog_tags", tag);
        }
      case ByAuthor =>
        if Active(f, ByTag) {
          UpdatesCommute(WithJoin(m, f, ByCategory), "wikilog_authors", auth, "wikilog_tags", tag);
        }
      case ByTag =>
    }
  }

  lemma WithoutTables(f: ItemFilter, j: JoinFilter, lastComment: bool, db: Db)
    requires Active(f, j)
    ensures multiset(ItemQueryInfo(f, lastComment, db).tables)
      == multiset(ItemQueryInfo(Without(f, j), lastComment, db).tables) + multiset{JoinTable(j)}
  {
    var g := Without(f, j);
    WithoutPieces(f, j, ByCategory);
    WithoutPieces(f, j, ByAuthor);
    WithoutPieces(f, j, ByTag);
    assert multiset(AllJoinTables(f)) == multiset(AllJoinTables(g)) + multiset{JoinTable(j)};
    MultisetInsert(db.itemTables, AllJoinTables(f), AllJoinTables(g),
                   if lastComment then ["wikilog_comments"] else [], JoinTable(j));
  }


  /** One more element in the middle of a list is one more in its multiset. */
  lemma MultisetInsert<T>(b: seq<T>, c: seq<T>, c': seq<T>, d: seq<T>, x: T)
    requires multiset(c) == multiset(c') + multiset{x}
    ensures multiset(b + c + d) == multiset(b + c' + d) + multiset{x}
  {
    calc {
      multiset(b + c + d);
      multiset(b) + multiset(c) + multiset(d);
      multiset(b) + multiset(c') + multiset(d) + multiset{x};
      multiset(b + c' + d) + multiset{x};
    }
  }

  lemma WithoutAllJoinFilterConds(f: ItemFilter, j: JoinFilter)
    requires Active(f, j)
    ensures multiset(AllJoinFilterConds(f)) == multiset(AllJoinFilterConds(Without(f, j))) + multiset{JoinCondOf(f, j)}
  {
    WithoutPieces(f, j, ByCategory);
    WithoutPieces(f, j, ByAuthor);
    WithoutPieces(f, j, ByTag);
  }

  lemma WithoutConds(f: ItemFilter, j: JoinFilter, lastComment: bool, db: Db)
    requires Active(f, j)
    ensures multiset(ItemQueryInfo(f, lastComment, db).conds)
      == multiset(ItemQueryInfo(Without(f, j), lastComment, db).conds) + multiset{JoinCondOf(f, j)}
  {
    var g := Without(f, j);
    assert BaseConds(g) == BaseConds(f) && g.date == f.date;
    WithoutAllJoinFilterConds(f, j);
    MultisetInsert(BaseConds(f), AllJoinFilterConds(f), AllJoinFilterConds(g), DateConds("wlp_pubdate", f.date),
                   JoinCondOf(f, j));
  }

  lemma WithoutJoins(f: ItemFilter, j: JoinFilter, lastComment: bool, db: Db)
    requires Active(f, j)
    ensures ItemQueryInfo(f, lastComment, db).joinConds
      == ItemQueryInfo(Without(f, j), lastComment, db).joinConds[JoinTable(j) := JoinOn(j)]
  {
    var g := Without(f, j);
    JoinsWithout(f, j, db.itemJoins);
    if lastComment {
      var joins' := WithJoin(WithJoin(WithJoin(db.itemJoins, g, ByCategory), g, ByAuthor), g, ByTag);
      UpdatesCommute(joins', JoinTable(j), JoinOn(j), "wikilog_comments", CommentsJoin);
    }
  }

  /** A category, author or tag filter adds exactly one table, one JOIN and
      one condition, and changes nothing else. */
  lemma ItemJoinFilterAddsOne(f: ItemFilter, j: JoinFilter, lastComment: bool, db: Db)
    requires Active(f, j)
    ensures var q, q' := ItemQueryInfo(f, lastComment, db), ItemQueryInfo(Without(f, j), lastComment, db);
      && multiset(q.tables) == multiset(q'.tables) + multiset{JoinTable(j)}
      && multiset(q.conds) == multiset(q'.conds) + multiset{JoinCondOf(f, j)}
      && q.joinConds == q'.joinConds[JoinTable(j) := JoinOn(j)]
      && q.fields == q'.fields && q.options == q'.options
  {
    WithoutTables(f, j, lastComment, db);
    WithoutConds(f, j, lastComment, db);
    WithoutJoins(f, j, lastComment, db);
  }

  /** A date filter adds exactly the two conditions `>= start` and `< end`. */
  lemma ItemDateAddsWindow(f: ItemFilter, lastComment: bool, db: Db)
    requires f.date.Some?
    ensures var q, q' := ItemQueryInfo(f, lastComment, db), ItemQueryInfo(f.(date := None), lastComment, db);
      && q.conds == q'.conds + [Raw(Compare("wlp_pubdate", ">=", Timestamp(f.date.value.start))),
                                Raw(Compare("wlp_pubdate", "<", Timestamp(f.date.value.end)))]
      && q.tables == q'.tables && q.fields == q'.fields && q.joinConds == q'.joinConds && q.options == q'.options
  {
    var g := f.(date := None);
    SameJoinFilters(f, g, lastComment, db);
    assert BaseConds(g) == BaseConds(f) && AllJoinFilterConds(g) == AllJoinFilterConds(f);
    assert ItemConds(g) == BaseConds(f) + AllJoinFilterConds(f) + [];
  }

  /** Two states with the same join filters join the same tables. */
  lemma SameJoinFilters(f: ItemFilter, g: ItemFilter, lastComment: bool, db: Db)
    requires f.category == g.category && f.author == g.author && f.tag == g.tag
    ensures ItemQueryInfo(f, lastComment, db).tables == ItemQueryInfo(g, lastComment, db).tables
    ensures ItemQueryInfo(f, lastComment, db).joinConds == ItemQueryInfo(g, lastComment, db).joinConds
  {
    assert Active(g, ByCategory) == Active(f, ByCategory) && Active(g, ByAuthor) == Active(f, ByAuthor)
      && Active(g, ByTag) == Active(f, ByTag);
  }



  /** The last-comment option adds one table, one aggregate field, one LEFT
      JOIN and the GROUP BY; without it there is no option at all. */
  lemma ItemLastCommentAggregate(f: ItemFilter, db: Db)
    ensures var q, q' := ItemQueryInfo(f, true, db), ItemQueryInfo(f, false, db);
      && q.tables == q'.tables + ["wikilog_comments"]
      && q.fields == q'.fields + [LastCommentField]
      && q.joinConds == q'.joinConds["wikilog_comments" := CommentsJoin]
      && q.conds == q'.conds
      && q.options == map["GROUP BY" := GroupBy(db)] && q'.options == map[]
  {
  }

  // ---------------------------------------------------------------------
  // The navigation-link parameters of `getDefaultQuery`.

  /** "wikilog": the wikilog's full title when the links need it, else the
      namespace wildcard, else unset. */
  function ItemWikilogParam(f: ItemFilter, wiki: Wiki): Option<Param> {
    if f.needWikilogParam && f.wikilogTitle.Some? then Some(PText(f.wikilogTitle.value.prefixedDbKey))
    else if f.namespace.Some? then Some(PText(wiki.wildcardKey(f.namespace.value)))
    else None
  }

  /** "show": only "all" and "drafts" are written; published is the default. */
  function ItemShowParam(pubStatus: int): Option<Param> {
    if pubStatus == PsAll then Some(PText("all"))
    else if pubStatus == PsDrafts then Some(PText("drafts"))
    else None
  }

  function CategoryParam(f: ItemFilter): Option<Param> {
    if f.category.Some? then Some(PText(f.category.value.dbKey)) else None
  }

  /** The parameter array `getDefaultQuery` returns, keys in the order
      wikilog, show, category, author, tag, year, month, day. */
  function ItemParams(f: ItemFilter, wiki: Wiki): seq<(string, Param)> {
    Entry("wikilog", ItemWikilogParam(f, wiki)) + Entry("show", ItemShowParam(f.pubStatus))
    + Entry("category", CategoryParam(f)) + Entry("author", TextParam(f.author))
    + Entry("tag", TextParam(f.tag)) + DateEntries(f.date)
  }

  /** What each parameter of a link should hold, key by key. */
  function ItemParam(f: ItemFilter, wiki: Wiki, key: string): Option<Param> {
    if key == "wikilog" then ItemWikilogParam(f, wiki)
    else if key == "show" then ItemShowParam(f.pubStatus)
    else if key == "category" then CategoryParam(f)
    else if key == "author" then TextParam(f.author)
    else if key == "tag" then TextParam(f.tag)
    else if f.date.None? then None
    else if key == "year" then Some(PInt(f.date.value.year))
    else if key == "month" then Some(DateParam(f.date.value.month))
    else if key == "day" then Some(DateParam(f.date.value.day))
    else None
  }

  /** Every key of the array holds what `ItemParam` says. */
  lemma ItemParamsLookup(f: ItemFilter, wiki: Wiki, key: string)
    ensures ParamLookup(ItemParams(f, wiki), key) == ItemParam(f, wiki, key)
  {
    var e1, e2, e3 := Entry("wikilog", ItemWikilogParam(f, wiki)), Entry("show", ItemShowParam(f.pubStatus)),
                      Entry("category", CategoryParam(f));
    var e4, e5, e6 := Entry("author", TextParam(f.author)), Entry("tag", TextParam(f.tag)), DateEntries(f.date);
    EntryLookup("wikilog", ItemWikilogParam(f, wiki), key);
    EntryLookup("show", ItemShowParam(f.pubStatus), key);
    EntryLookup("category", CategoryParam(f), key);
    EntryLookup("author", TextParam(f.author), key);
    EntryLookup("tag", TextParam(f.tag), key);
    DateEntriesLookup(f.date, key);
    ParamLookupAppend(e1, e2, key);
    ParamLookupAppend(e1 + e2, e3, key);
    ParamLookupAppend(e1 + e2 + e3, e4, key);
    ParamLookupAppend(e1 + e2 + e3 + e4, e5, key);
    ParamLookupAppend(e1 + e2 + e3 + e4 + e5, e6, key);
  }

  /** How a special page feeds the "show" parameter back into `setPubStatus`. */
  function ItemShowArg(p: Option<Param>): PubStatusArg {
    if p.Some? && p.value.PText? then StatusText(p.value.s) else StatusNull
  }

  /** The publish status `setPubStatus` stores for an argument: null means
      published, a string is parsed, an integer is kept. */
  function PubStatusOf(arg: PubStatusArg): int {
    match arg
    case StatusNull => PsPublished
    case StatusText(s) => ParsePubStatusText(s)
    case StatusInt(n) => n
  }

  /** Feeding "show" back reproduces each of the three publish statuses:
      published is the status an absent parameter (null) gives. */
  lemma ItemShowRoundTrip(f: ItemFilter, wiki: Wiki)
    requires f.pubStatus in {PsAll, PsPublished, PsDrafts}
    ensures PubStatusOf(ItemShowArg(ParamLookup(ItemParams(f, wiki), "show"))) == f.pubStatus
  {
    ItemParamsLookup(f, wiki, "show");
  }

  /** An integer status outside the three constants filters like "all" in
      the descriptor, yet its link omits "show" and so reads back as published. */
  lemma ItemShowLossy(f: ItemFilter, wiki: Wiki, lastComment: bool, db: Db)
    requires f.pubStatus !in {PsAll, PsPublished, PsDrafts}
    ensures "wlp_publish" !in Keys(ItemQueryInfo(f, lastComment, db).conds)
    ensures PubStatusOf(ItemShowArg(ParamLookup(ItemParams(f, wiki), "show"))) == PsPublished
  {
    ItemPublishCondition(f, lastComment, db);
    ItemParamsLookup(f, wiki, "show");
  }

  /** Feeding "year", "month" and "day" back into `setDate` stores the same
      date again. */
  lemma ItemDateRoundTrip(f: ItemFilter, wiki: Wiki, year: int, month: int, day: int, today: Today, later: Today)
    requires ValidToday(today) && ValidToday(later)
    requires f.date == ResolveDate(year, month, day, today) && f.date.Some? && f.date.value.year >= 1
    ensures var q := ItemParams(f, wiki);
      ResolveDate(ParamInt(ParamLookup(q, "year")), ParamInt(ParamLookup(q, "month")),
                  ParamInt(ParamLookup(q, "day")), later) == f.date
  {
    ItemParamsLookup(f, wiki, "year");
    ItemParamsLookup(f, wiki, "month");
    ItemParamsLookup(f, wiki, "day");
    ResolveDateIdempotent(year, month, day, today, later);
  }

  // ---------------------------------------------------------------------
  // The body of `getQueryInfo` after the options are applied, block by block.

  /** The redirect, forced-empty, scope and publish-status conditions. */
  method CompileBaseConds(f: ItemFilter) returns (conds: seq<Cond>)
    ensures conds == BaseConds(f)
  {
    conds := [Eq("p.page_is_redirect", IntVal(0))];
    if f.empty {
      conds := conds + [AlwaysFalse];
    }
    if f.wikilogTitle.Some? {
      conds := conds + [Eq("wlp_parent", IntVal(f.wikilogTitle.value.articleId))];
    } else if f.namespace.Some? {
      conds := conds + [Eq("p.page_namespace", IntVal(f.namespace.value))];
    }
    if f.pubStatus == PsPublished {
      conds := conds + [Eq("wlp_publish", IntVal(1))];
    } else if f.pubStatus == PsDrafts {
      conds := conds + [Eq("wlp_publish", IntVal(0))];
    }
  }

  /** The category, author or tag block: one table, one JOIN, one condition. */
  method CompileJoinFilter(f: ItemFilter, j: JoinFilter, tables: seq<string>, conds: seq<Cond>,
                           joins: map<string, JoinCond>)
    returns (tables': seq<string>, conds': seq<Cond>, joins': map<string, JoinCond>)
    ensures tables' == tables + JoinTables(f, j)
    ensures conds' == conds + JoinFilterConds(f, j)
    ensures joins' == WithJoin(joins, f, j)
  {
    tables', conds', joins' := tables, conds, joins;
    match j {
      case ByCategory =>
        if f.category.Some? {
          tables' := tables' + ["categorylinks"];
          joins' := joins'["categorylinks" := JoinCond("JOIN", "wlp_page = cl_from")];
          conds' := conds' + [Eq("cl_to", StrVal(f.category.value.dbKey))];
        }
      case ByAuthor =>
        if f.author.Some? && TruthyString(f.author.value) {
          tables' := tables' + ["wikilog_authors"];
          joins' := joins'["wikilog_authors" := JoinCond("JOIN", "wlp_page = wla_page")];
          conds' := conds' + [Eq("wla_author_text", StrVal(f.author.value))];
        }
      case ByTag =>
        if f.tag.Some? && TruthyString(f.tag.value) {
          tables' := tables' + ["wikilog_tags"];
          joins' := joins'["wikilog_tags" := JoinCond("JOIN", "wlp_page = wlt_page")];
          conds' := conds' + [Eq("wlt_tag", StrVal(f.tag.value))];
        }
    }
  }

  /** The whole descriptor for a filter state and the last-comment switch. */
  method CompileItemQuery(f: ItemFilter, db: Db, lastComment: bool) returns (info: QueryInfo)
    ensures info == ItemQueryInfo(f, lastComment, db)
  {
    var conds := CompileBaseConds(f);
    var tables, fields, joins := db.itemTables, db.itemFields, db.itemJoins;
    var options: map<string, SqlOption> := map[];
    tables, conds, joins := CompileJoinFilter(f, ByCategory, tables, conds, joins);
    tables, conds, joins := CompileJoinFilter(f, ByAuthor, tables, conds, joins);
    tables, conds, joins := CompileJoinFilter(f, ByTag, tables, conds, joins);
    assert conds == BaseConds(f) + AllJoinFilterConds(f);
    assert tables == db.itemTables + AllJoinTables(f);
    conds := AddDateConds(conds, "wlp_pubdate", f.date);
    if lastComment {
      tables := tables + ["wikilog_comments"];
      fields := fields + [LastCommentField];
      joins := joins["wikilog_comments" := CommentsJoin];
      if db.implicitGroupby {
        options := options["GROUP BY" := Column("wlp_page")];
      } else {
        options := options["GROUP BY" := Columns(db.itemGroupbyFields)];
      }
    }
    info := QueryInfo(tables, fields, conds, options, joins);
  }

  /** The body of `getDefaultQuery`: the parameter array of navigation
      links, keys in the order wikilog, show, category, author, tag, year,
      month, day. */
  method DefaultItemQuery(f: ItemFilter, wiki: Wiki) returns (query: seq<(string, Param)>)
    ensures query == ItemParams(f, wiki)
    ensures forall key :: ParamLookup(query, key) == ItemParam(f, wiki, key)
  {
    query := [];
    if f.needWikilogParam && f.wikilogTitle.Some? {
      query := query + [("wikilog", PText(f.wikilogTitle.value.prefixedDbKey))];
    } else if f.namespace.Some? {
      query := query + [("wikilog", PText(wiki.wildcardKey(f.namespace.value)))];
    }
    ghost var q1 := query;
    if f.pubStatus == PsAll {
      query := query + [("show", PText("all"))];
    } else if f.pubStatus == PsDrafts {
      query := query + [("show", PText("drafts"))];
    }
    assert query == q1 + Entry("show", ItemShowParam(f.pubStatus));
    ghost var q2 := query;
    if f.category.Some? {
      query := query + [("category", PText(f.category.value.dbKey))];
    }
    assert query == q2 + Entry("category", CategoryParam(f));
    query := AddTextEntry(query, "author", f.author);
    query := AddTextEntry(query, "tag", f.tag);
    query := AddDateEntries(query, f.date);
    assert q1 == Entry("wikilog", ItemWikilogParam(f, wiki));
    forall key ensures ParamLookup(query, key) == ItemParam(f, wiki, key) {
      ItemParamsLookup(f, wiki, key);
    }
  }


  // ---------------------------------------------------------------------

  class WikilogItemQuery {
    /** The inherited option store and "empty" flag. */
    const base: WikilogQuery
    /** `$wgWikilogEnableTags`, read when a tag is set. */
    const enableTags: bool
    /** Constructed without a title: a global listing, whose links need the
        wikilog parameter (`mNeedWikilogParam`). */
    const needWikilogParam: bool

    var wikilogTitle: Option<Title>
    var namespace: Option<int>
    var pubStatus: int
    var category: Option<Title>
    var author: Option<string>
    var tag: Option<string>
    var date: Option<DateSpec>

    function Filter(): ItemFilter
      reads this, base
    {
      ItemFilter(wikilogTitle, namespace, pubStatus, category, author, tag, date, needWikilogParam, base.empty)
    }

    /** `new WikilogItemQuery($wikilogTitle)`; note that the publish status
        starts as "all", not "published". */
    constructor (wikilogTitle: Option<Title>, enableTags: bool)
      ensures fresh(base) && base.defaults == ItemDefaults && base.options == map[]
      ensures this.enableTags == enableTags
      ensures Filter() == ItemFilter(wikilogTitle, None, PsAll, None, None, None, None, wikilogTitle.None?, false)
    {
      base := new WikilogQuery(ItemDefaults);
      this.enableTags := enableTags;
      this.wikilogTitle := wikilogTitle;
      needWikilogParam := wikilogTitle.None?;
      namespace := None;
      pubStatus := PsAll;
      category := None;
      author := None;
      tag := None;
      date := None;
    }

    method SetWikilogTitle(title: Option<Title>)
      modifies this
      ensures Filter() == old(Filter()).(wikilogTitle := title)
    {
      wikilogTitle := title;
    }

    /** An integer namespace, or `false` (None) to drop the filter. */
    method SetNamespace(ns: Option<int>)
      modifies this
      ensures Filter() == old(Filter()).(namespace := ns)
    {
      namespace := ns;
    }

    /** Never fails: null gives published, strings are parsed (unknown text
        gives published), integers are stored as they are. */
    method SetPubStatus(arg: PubStatusArg)
      modifies this
      ensures Filter() == old(Filter()).(pubStatus := PubStatusOf(arg))
    {
      var ps: int;
      match arg {
        case StatusNull => ps := PsPublished;
        case StatusText(s) => ps := ParsePubStatusText(s);
        case StatusInt(n) => ps := n;
      }
      pubStatus := ps;
    }

    /** A title is stored; a text is made a category title, and left unset
        when that fails; anything else is ignored. */
    method SetCategory(arg: CategoryArg, wiki: Wiki)
      modifies this
      ensures arg.CategoryTitle? ==> Filter() == old(Filter()).(category := Some(arg.title))
      ensures arg.CategoryText? && wiki.makeTitleSafe(NsCategory, arg.text).Some? ==>
        Filter() == old(Filter()).(category := wiki.makeTitleSafe(NsCategory, arg.text))
      ensures arg.CategoryText? && wiki.makeTitleSafe(NsCategory, arg.text).None? ==> Filter() == old(Filter())
      ensures arg.CategoryOther? ==> Filter() == old(Filter())
    {
      match arg {
        case CategoryTitle(t) => category := Some(t);
        case CategoryText(text) =>
          var t := wiki.makeTitleSafe(NsCategory, text);
          if t.Some? {
            category := t;
          }
        case CategoryOther =>
      }
    }

    method SetAuthor(arg: Option<string>, wiki: Wiki)
      modifies this
      ensures Filter() == old(Filter()).(author := AuthorAfter(old(author), arg, wiki))
    {
      if arg.Some? {
        var t := wiki.makeTitleSafe(NsUser, arg.value);
        if t.Some? {
          author := wiki.canonicalName(t.value.text);
        }
      }
    }

    /** Stored only when tags are enabled. */
    method SetTag(arg: Option<string>)
      modifies this
      ensures Filter() == if enableTags then old(Filter()).(tag := arg) else old(Filter())
    {
      if enableTags {
        tag := arg;
      }
    }

    /** The date filter is replaced only when the date resolves to an interval. */
    method SetDate(year: int, month: int, day: int, today: Today)
      requires ValidToday(today)
      modifies this
      ensures var r := ResolveDate(year, month, day, today);
        Filter() == old(Filter()).(date := if r.Some? then r else old(date))
    {
      var y, m, d, interval := PartialDateToInterval(year, month, day, today);
      if interval.Some? {
        date := Some(DateSpec(y.value, m, d, interval.value.0, interval.value.1));
      }
    }

    /** `isSingleWikilog()`: the articles come from one wikilog, that is, the
        descriptor restricts `wlp_parent` whatever the options and database. */
    function IsSingleWikilog(): (single: bool)
      reads this, base
      ensures single ==> forall lastComment, db :: "wlp_parent" in Keys(ItemQueryInfo(Filter(), lastComment, db).conds)
      ensures !single ==> forall lastComment, db :: "wlp_parent" !in Keys(ItemQueryInfo(Filter(), lastComment, db).conds)
    {
      ItemSingleWikilogAll(Filter());
      wikilogTitle.Some?
    }

    /** `getQueryInfo($db, $opts)`: applies `$opts` to the option store for
        good (throwing as `setOptions` does), then builds the descriptor. */
    method GetQueryInfo(db: Db, opts: OptionsArg) returns (r: Result<QueryInfo, QueryError>)
      modifies base
      ensures opts.OptOther? ==> r == Failure(InvalidOptions) && base.options == old(base.options)
      ensures opts.OptName? ==> base.options == old(base.options)[opts.name := Bool(true)]
      ensures opts.OptArray? ==> base.options == Merge(old(base.options), opts.entries)
      ensures opts.OptNull? ==> base.options == old(base.options)
      ensures Filter() == old(Filter())
      ensures !opts.OptOther? ==>
        r == Success(ItemQueryInfo(Filter(), Truthy(base.GetOption(LastCommentTimestamp)), db))
    {
      var outcome := base.SetOptions(opts);
      if outcome.Fail? {
        return Failure(outcome.error);
      }
      var info := CompileItemQuery(Filter(), db, Truthy(base.GetOption(LastCommentTimestamp)));
      r := Success(info);
    }

    /** `getDefaultQuery()` */
    method GetDefaultQuery(wiki: Wiki) returns (query: seq<(string, Param)>)
      ensures query == ItemParams(Filter(), wiki)
      ensures forall key :: ParamLookup(query, key) == ItemParam(Filter(), wiki, key)
    {
      query := DefaultItemQuery(Filter(), wiki);
    }
  }
}
