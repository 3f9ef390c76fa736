/** `WikilogCommentQuery`: filters on wikilog comments (moderation status,
    article or wikilog or namespace, thread, author, date), compiled into a
    query descriptor and into navigation-link parameters. */
module CommentQueries {
  import opened Wrappers
  import opened Php
  import opened Externals
  import opened Sql
  import opened DateInterval
  import opened QueryBase
  import opened Filters

  /** Moderation-status filter values (`MS_*`). */
  const MsAll: string := "all"
  const MsAccepted: string := "accepted"
  const MsPending: string := "pending"
  const MsNotDeleted: string := "notdeleted"
  const MsNotPending: string := "notpending"
  const ModStatuses: seq<string> := [MsAll, MsAccepted, MsPending, MsNotDeleted, MsNotPending]

  /** The one option a comment query declares, and its default. */
  const IncludeItem: string := "include-item"
  const CommentDefaults: map<string, OptValue> := map[IncludeItem := Bool(false)]

  /** The filter state of a comment query, its own fields and the inherited
      "empty" flag. */
  datatype CommentFilter = CommentFilter(
    modStatus: string,
    namespace: Option<int>,
    wikilog: Option<Title>,
    item: Option<Item>,
    thread: Option<string>,
    author: Option<string>,
    date: Option<DateSpec>,
    empty: bool)

  /** The state of a freshly constructed comment query. */
  const InitialCommentFilter: CommentFilter := CommentFilter(MsAll, None, None, None, None, None, None, false)

  /** `setModStatus($modStatus)` for a string (Some) or null (None): null
      means "all", one of the five statuses is kept, anything else throws. */
  function ParseModStatus(arg: Option<string>): (r: Result<string, QueryError>)
    ensures arg.None? ==> r == Success(MsAll)
    ensures arg.Some? ==> (r.Success? <==> arg.value in ModStatuses)
    ensures arg.Some? && r.Success? ==> r.value == arg.value
    ensures r.Success? ==> r.value in ModStatuses
    ensures r.Failure? ==> r.error == InvalidModStatus
  {
    if arg.None? then Success(MsAll)
    else if arg.value in ModStatuses then Success(arg.value)
    else Failure(InvalidModStatus)
  }

  // ---------------------------------------------------------------------
  // `setWikilogOrItem`: what a title, wikilog information or article
  // designates.

  /** The argument of `setWikilogOrItem`: a title, a `WikilogInfo`, a
      `WikilogItem`, or anything else. */
  datatype WikilogRef = RefTitle(title: Title) | RefInfo(info: WikilogInfo) | RefItem(item: Item) | RefOther

  /** What the query is then scoped to: a whole wikilog, or one article. */
  datatype Scope = ScopeWikilog(title: Title) | ScopeItem(item: Item)

  function ResolveInfo(info: WikilogInfo, wiki: Wiki): Result<Scope, QueryError> {
    if info.isItem then
      match wiki.itemFromInfo(info)
      case None => Failure(NotWikilogObject)
      case Some(item) => Success(ScopeItem(item))
    else Success(ScopeWikilog(info.title))
  }

  /** A title is first looked up as wikilog information; information about
      an article becomes that article, about a wikilog that wikilog; an
      article is taken as it is; everything else throws. */
  function ResolveRef(from: WikilogRef, wiki: Wiki): (r: Result<Scope, QueryError>)
    ensures r.Failure? ==> r.error == NotWikilogObject
    ensures from.RefItem? ==> r == Success(ScopeItem(from.item))
    ensures from.RefOther? ==> r.Failure?
    ensures from.RefInfo? && !from.info.isItem ==> r == Success(ScopeWikilog(from.info.title))
    ensures from.RefInfo? && from.info.isItem ==>
      r == if wiki.itemFromInfo(from.info).Some? then Success(ScopeItem(wiki.itemFromInfo(from.info).value))
           else Failure(NotWikilogObject)
    ensures from.RefTitle? && wiki.wikilogInfo(from.title).None? ==> r == Failure(NotWikilogObject)
    ensures from.RefTitle? && wiki.wikilogInfo(from.title).Some? && !wiki.wikilogInfo(from.title).value.isItem ==>
      r == Success(ScopeWikilog(wiki.wikilogInfo(from.title).value.title))
    ensures from.RefTitle? && wiki.wikilogInfo(from.title).Some? && wiki.wikilogInfo(from.title).value.isItem ==>
      r == if wiki.itemFromInfo(wiki.wikilogInfo(from.title).value).Some?
           then Success(ScopeItem(wiki.itemFromInfo(wiki.wikilogInfo(from.title).value).value))
           else Failure(NotWikilogObject)
  {
    match from
    case RefTitle(t) =>
      (match wiki.wikilogInfo(t)
       case None => Failure(NotWikilogObject)
       case Some(info) => ResolveInfo(info, wiki))
    case RefInfo(info) => ResolveInfo(info, wiki)
    case RefItem(item) => Success(ScopeItem(item))
    case RefOther => Failure(NotWikilogObject)
  }

  /** `setWikilog` or `setItem` with what the reference designates. */
  function WithScope(f: CommentFilter, s: Scope): CommentFilter {
    match s
    case ScopeWikilog(t) => f.(wikilog := Some(t))
    case ScopeItem(i) => f.(item := Some(i))
  }

  // ---------------------------------------------------------------------
  // The descriptor of `getQueryInfo`, part by part.

  /** Accepted and pending are keyed equalities on `wlc_status`; the two
      "not" statuses are raw inequalities; "all" adds nothing. */
  function StatusConds(modStatus: string): seq<Cond> {
    if modStatus == MsAccepted then [Eq("wlc_status", StrVal("OK"))]
    else if modStatus == MsPending then [Eq("wlc_status", StrVal("PENDING"))]
    else if modStatus == MsNotDeleted then [Raw(Compare("wlc_status", "<>", Literal("DELETED")))]
    else if modStatus == MsNotPending then [Raw(Compare("wlc_status", "<>", Literal("PENDING")))]
    else []
  }

  /** The replies below a thread: `wlc_thread LIKE 'thread/%'`. */
  function ThreadCond(thread: string): Cond {
    Raw(LikePrefix("wlc_thread", thread + "/"))
  }

  /** Article, else wikilog, else namespace; the thread only with an article. */
  function CommentScopeConds(f: CommentFilter): seq<Cond> {
    if f.item.Some? then
      [Eq("wlc_post", IntVal(f.item.value.id))] + (if HasText(f.thread) then [ThreadCond(f.thread.value)] else [])
    else if f.wikilog.Some? then [Eq("wlp_parent", IntVal(f.wikilog.value.articleId))]
    else if f.namespace.Some? then [Eq("c.page_namespace", IntVal(f.namespace.value))]
    else []
  }

  /** A wikilog scope (without an article) needs the articles table. */
  predicate JoinsPosts(f: CommentFilter) {
    f.item.None? && f.wikilog.Some?
  }

  function AuthorConds(f: CommentFilter): seq<Cond> {
    if HasText(f.author) then [Eq("wlc_user_text", StrVal(f.author.value))] else []
  }

  function CommentConds(f: CommentFilter): seq<Cond> {
    (if f.empty then [AlwaysFalse] else [])
    + StatusConds(f.modStatus) + CommentScopeConds(f) + AuthorConds(f) + DateConds("wlc_timestamp", f.date)
  }

  const PostsJoin: JoinCond := JoinCond("JOIN", "wlp_page = wlc_post")

  /** The descriptor `getQueryInfo` returns for a filter state, given whether
      the "include-item" option is on. With it, the article tables, fields
      and joins are added, the comment joins (with the articles JOIN)
      winning over the article joins on a shared key. */
  function CommentQueryInfo(f: CommentFilter, includeItem: bool, db: Db): QueryInfo {
    QueryInfo(
      db.commentTables + (if includeItem then db.itemTables else if JoinsPosts(f) then ["wikilog_posts"] else []),
      db.commentFields + (if includeItem then db.itemFields else []),
      CommentConds(f),
      map[],
      if includeItem then db.itemJoins + db.commentJoins["wikilog_posts" := PostsJoin]
      else if JoinsPosts(f) then db.commentJoins["wikilog_posts" := PostsJoin]
      else db.commentJoins)
  }

  // ---------------------------------------------------------------------
  // What the descriptor promises.

  /** Every condition's column or predicate, by where it comes from. */
  lemma CommentCondsShape(f: CommentFilter, c: Cond)
    requires c in CommentConds(f)
    ensures c.Eq? ==> c.column in {"wlc_status", "wlc_post", "wlp_parent", "c.page_namespace", "wlc_user_text"}
    ensures c.Eq? && c.column == "wlc_status" ==> c in StatusConds(f.modStatus)
    ensures c.Raw? && c.expr.Compare? && c.expr.column == "wlc_status" ==> c in StatusConds(f.modStatus)
    ensures c.Raw? && c.expr.LikePrefix? ==> c in CommentScopeConds(f)
  {
  }

  /** The moderation status becomes exactly one `wlc_status` condition:
      `= 'OK'` for accepted, `= 'PENDING'` for pending, `<> 'DELETED'` for
      notdeleted, `<> 'PENDING'` for notpending; "all" adds none. */
  lemma CommentStatusCondition(f: CommentFilter, includeItem: bool, db: Db)
    ensures var c := CommentQueryInfo(f, includeItem, db).conds;
      && (f.modStatus == MsAccepted <==> Eq("wlc_status", StrVal("OK")) in c)
      && (f.modStatus == MsPending <==> Eq("wlc_status", StrVal("PENDING")) in c)
      && (f.modStatus == MsNotDeleted <==> Raw(Compare("wlc_status", "<>", Literal("DELETED"))) in c)
      && (f.modStatus == MsNotPending <==> Raw(Compare("wlc_status", "<>", Literal("PENDING"))) in c)
      && (f.modStatus != MsAccepted && f.modStatus != MsPending <==> "wlc_status" !in Keys(c))
  {
    var c := CommentQueryInfo(f, includeItem, db).conds;
    forall x | x in c && ((x.Eq? && x.column == "wlc_status") || (x.Raw? && x.expr.Compare? && x.expr.column == "wlc_status"))
      ensures x in StatusConds(f.modStatus)
    {
      CommentCondsShape(f, x);
    }
    forall x | x in StatusConds(f.modStatus) ensures x in c {
      assert c == (if f.empty then [AlwaysFalse] else []) + StatusConds(f.modStatus)
        + (CommentScopeConds(f) + AuthorConds(f) + DateConds("wlc_timestamp", f.date));
    }
    StatusKeys(f.modStatus, c);
  }

  /** The status conditions of any condition list that holds those of the
      moderation status and no other test of `wlc_status`. */
  lemma StatusKeys(modStatus: string, c: seq<Cond>)
    requires forall x | x in StatusConds(modStatus) :: x in c
    requires forall x | x in c && ((x.Eq? && x.column == "wlc_status")
                                   || (x.Raw? && x.expr.Compare? && x.expr.column == "wlc_status"))
      :: x in StatusConds(modStatus)
    ensures modStatus == MsAccepted <==> Eq("wlc_status", StrVal("OK")) in c
    ensures modStatus == MsPending <==> Eq("wlc_status", StrVal("PENDING")) in c
    ensures modStatus == MsNotDeleted <==> Raw(Compare("wlc_status", "<>", Literal("DELETED"))) in c
    ensures modStatus == MsNotPending <==> Raw(Compare("wlc_status", "<>", Literal("PENDING"))) in c
    ensures modStatus != MsAccepted && modStatus != MsPending <==> "wlc_status" !in Keys(c)
  {
    if StatusConds(modStatus) != [] {
      assert StatusConds(modStatus)[0] in c;
    }
    if modStatus != MsAccepted && modStatus != MsPending {
      NotKey(c, "wlc_status");
    }
  }


  /** An article takes precedence over a wikilog, and a wikilog over a
      namespace; only a wikilog scope joins the articles table, and the
      thread is filtered only together with an article. */
  lemma CommentScopePrecedence(f: CommentFilter, includeItem: bool, db: Db)
    ensures var q := CommentQueryInfo(f, includeItem, db);
      var keys := Keys(q.conds);
      && (f.item.Some? ==>
            Eq("wlc_post", IntVal(f.item.value.id)) in q.conds
            && "wlp_parent" !in keys && "c.page_namespace" !in keys)
      && (f.item.None? && f.wikilog.Some? ==>
            Eq("wlp_parent", IntVal(f.wikilog.value.articleId)) in q.conds
            && "wlc_post" !in keys && "c.page_namespace" !in keys
            && (!includeItem ==> q.tables == db.commentTables + ["wikilog_posts"]
                                 && q.joinConds == db.commentJoins["wikilog_posts" := PostsJoin]))
      && (f.item.None? && f.wikilog.None? && f.namespace.Some? ==>
            Eq("c.page_namespace", IntVal(f.namespace.value)) in q.conds
            && "wlc_post" !in keys && "wlp_parent" !in keys)
      && (f.item.None? && f.wikilog.None? && f.namespace.None? ==>
            "wlc_post" !in keys && "wlp_parent" !in keys && "c.page_namespace" !in keys)
      && (f.item.Some? && !includeItem ==> q.tables == db.commentTables && q.joinConds == db.commentJoins)
  {
    var c := CommentQueryInfo(f, includeItem, db).conds;
    forall x | x in c && x.Eq?
      ensures x.column == "wlc_post" ==> f.item.Some?
      ensures x.column == "wlp_parent" ==> f.item.None? && f.wikilog.Some?
      ensures x.column == "c.page_namespace" ==> f.item.None? && f.wikilog.None? && f.namespace.Some?
    {
      CommentCondsShape(f, x);
      if x.column in {"wlc_post", "wlp_parent", "c.page_namespace"} {
        assert x in CommentScopeConds(f);
      }
    }
  }

  /** The `LIKE 'thread/%'` condition is there exactly when an article is
      set and the thread is a non-empty, non-"0" text. */
  lemma CommentThreadOnlyWithItem(f: CommentFilter, includeItem: bool, db: Db)
    ensures var c := CommentQueryInfo(f, includeItem, db).conds;
      && (f.item.Some? && HasText(f.thread) ==> ThreadCond(f.thread.value) in c)
      && (forall x :: x in c && x.Raw? && x.expr.LikePrefix? ==>
            f.item.Some? && HasText(f.thread) && x == ThreadCond(f.thread.value))
  {
    var c := CommentQueryInfo(f, includeItem, db).conds;
    forall x | x in c && x.Raw? && x.expr.LikePrefix?
      ensures f.item.Some? && HasText(f.thread) && x == ThreadCond(f.thread.value)
    {
      CommentCondsShape(f, x);
    }
  }

  /** With "include-item" the article tables and fields follow the comment
      ones, the articles JOIN is present, and on a key both join lists
      define the comment one is kept. The conditions do not depend on it. */
  lemma CommentIncludeItem(f: CommentFilter, db: Db)
    ensures var q, q' := CommentQueryInfo(f, true, db), CommentQueryInfo(f, false, db);
      && q.tables == db.commentTables + db.itemTables
      && q.fields == db.commentFields + db.itemFields
      && q.joinConds["wikilog_posts"] == PostsJoin
      && (forall k :: k in db.commentJoins && k != "wikilog_posts" ==> q.joinConds[k] == db.commentJoins[k])
      && (forall k :: k in db.itemJoins && k !in db.commentJoins && k != "wikilog_posts" ==>
            q.joinConds[k] == db.itemJoins[k])
      && q.joinConds.Keys == db.itemJoins.Keys + db.commentJoins.Keys + {"wikilog_posts"}
      && q.conds == q'.conds && q.options == q'.options == map[]
      && q'.fields == db.commentFields
  {
  }

  /** A date filter adds exactly the two conditions `>= start` and `< end`
      on the comment timestamp. */
  lemma CommentDateAddsWindow(f: CommentFilter, includeItem: bool, db: Db)
    requires f.date.Some?
    ensures var q, q' := CommentQueryInfo(f, includeItem, db), CommentQueryInfo(f.(date := None), includeItem, db);
      && q.conds == q'.conds + [Raw(Compare("wlc_timestamp", ">=", Timestamp(f.date.value.start))),
                                Raw(Compare("wlc_timestamp", "<", Timestamp(f.date.value.end)))]
      && q.tables == q'.tables && q.fields == q'.fields && q.joinConds == q'.joinConds && q.options == q'.options
  {
  }

  /** A forced-empty query carries the unsatisfiable `0=1`, and only then. */
  lemma CommentEmptyCondition(f: CommentFilter, includeItem: bool, db: Db)
    ensures AlwaysFalse in CommentQueryInfo(f, includeItem, db).conds <==> f.empty
  {
    var c := CommentQueryInfo(f, includeItem, db).conds;
    if f.empty {
      assert c[0] == AlwaysFalse;
    } else {
      forall x | x in c ensures x != AlwaysFalse {
        CommentCondsShape(f, x);
      }
    }
  }

  // ---------------------------------------------------------------------
  // The navigation-link parameters of `getDefaultQuery`.

  function ItemKeyParam(f: CommentFilter): Option<Param> {
    if f.item.Some? then Some(PText(f.item.value.title.prefixedDbKey)) else None
  }

  /** "wikilog": only without an article; the wikilog's full title, else
      the namespace wildcard. */
  function CommentWikilogParam(f: CommentFilter, wiki: Wiki): Option<Param> {
    if f.item.Some? then None
    else if f.wikilog.Some? then Some(PText(f.wikilog.value.prefixedDbKey))
    else if f.namespace.Some? then Some(PText(wiki.wildcardKey(f.namespace.value)))
    else None
  }

  /** "show": every status but "all". */
  function CommentShowParam(modStatus: string): Option<Param> {
    if modStatus != MsAll then Some(PText(modStatus)) else None
  }

  /** The parameter array `getDefaultQuery` returns, keys in the order
      item, wikilog, show, author, year, month, day. */
  function CommentParams(f: CommentFilter, wiki: Wiki): seq<(string, Param)> {
    Entry("item", ItemKeyParam(f)) + Entry("wikilog", CommentWikilogParam(f, wiki)) + Entry("show", CommentShowParam(f.modStatus))
    + Entry("author", TextParam(f.author)) + DateEntries(f.date)
  }

  /** What each parameter of a link should hold, key by key. */
  function CommentParam(f: CommentFilter, wiki: Wiki, key: string): Option<Param> {
    if key == "item" then ItemKeyParam(f)
    else if key == "wikilog" then CommentWikilogParam(f, wiki)
    else if key == "show" then CommentShowParam(f.modStatus)
    else if key == "author" then TextParam(f.author)
    else if f.date.None? then None
    else if key == "year" then Some(PInt(f.date.value.year))
    else if key == "month" then Some(DateParam(f.date.value.month))
    else if key == "day" then Some(DateParam(f.date.value.day))
    else None
  }

  /** Every key of the array holds what `CommentParam` says. */
  lemma CommentParamsLookup(f: CommentFilter, wiki: Wiki, key: string)
    ensures ParamLookup(CommentParams(f, wiki), key) == CommentParam(f, wiki, key)
  {
    var e1, e2, e3 := Entry("item", ItemKeyParam(f)), Entry("wikilog", CommentWikilogParam(f, wiki)),
                      Entry("show", CommentShowParam(f.modStatus));
    var e4, e5 := Entry("author", TextParam(f.author)), DateEntries(f.date);
    EntryLookup("item", ItemKeyParam(f), key);
    EntryLookup("wikilog", CommentWikilogParam(f, wiki), key);
    EntryLookup("show", CommentShowParam(f.modStatus), key);
    EntryLookup("author", TextParam(f.author), key);
    DateEntriesLookup(f.date, key);
    ParamLookupAppend(e1, e2, key);
    ParamLookupAppend(e1 + e2, e3, key);
    ParamLookupAppend(e1 + e2 + e3, e4, key);
    ParamLookupAppend(e1 + e2 + e3 + e4, e5, key);
  }

  /** How a special page feeds the "show" parameter back into `setModStatus`. */
  function CommentShowArg(p: Option<Param>): Option<string> {
    if p.Some? && p.value.PText? then Some(p.value.s) else None
  }

  /** Feeding "show" back into `setModStatus` restores every valid status;
      "all", the only one omitted, is what an absent parameter (null) gives. */
  lemma CommentShowRoundTrip(f: CommentFilter, wiki: Wiki)
    requires f.modStatus in ModStatuses
    ensures ParseModStatus(CommentShowArg(ParamLookup(CommentParams(f, wiki), "show"))) == Success(f.modStatus)
  {
    CommentParamsLookup(f, wiki, "show");
  }

  /** An article's link names the article and never the wikilog. */
  lemma CommentLinkPrecedence(f: CommentFilter, wiki: Wiki)
    requires f.item.Some?
    ensures ParamLookup(CommentParams(f, wiki), "item") == Some(PText(f.item.value.title.prefixedDbKey))
    ensures ParamLookup(CommentParams(f, wiki), "wikilog") == None
  {
    CommentParamsLookup(f, wiki, "item");
    CommentParamsLookup(f, wiki, "wikilog");
  }

  // ---------------------------------------------------------------------
  // The bodies of `getQueryInfo` and `getDefaultQuery`, block by block.

  /** The empty, moderation-status, scope, author and date conditions. */
  method CompileCommentConds(f: CommentFilter) returns (conds: seq<Cond>)
    ensures conds == CommentConds(f)
  {
    conds := [];
    if f.empty {
      conds := conds + [AlwaysFalse];
    }
    conds := AddStatusConds(conds, f.modStatus);
    conds := AddScopeConds(conds, f);
    if f.author.Some? && TruthyString(f.author.value) {
      conds := conds + [Eq("wlc_user_text", StrVal(f.author.value))];
    }
    assert conds == ((if f.empty then [AlwaysFalse] else []) + StatusConds(f.modStatus) + CommentScopeConds(f))
      + AuthorConds(f);
    conds := AddDateConds(conds, "wlc_timestamp", f.date);
  }

  /** The moderation-status condition, if the status asks for one. */
  method AddStatusConds(conds: seq<Cond>, modStatus: string) returns (r: seq<Cond>)
    ensures r == conds + StatusConds(modStatus)
  {
    r := conds;
    if modStatus == MsAccepted {
      r := r + [Eq("wlc_status", StrVal("OK"))];
    } else if modStatus == MsPending {
      r := r + [Eq("wlc_status", StrVal("PENDING"))];
    } else if modStatus == MsNotDeleted {
      r := r + [Raw(Compare("wlc_status", "<>", Literal("DELETED")))];
    } else if modStatus == MsNotPending {
      r := r + [Raw(Compare("wlc_status", "<>", Literal("PENDING")))];
    } else {
      assert r == conds + [];
    }
  }

  /** The scope conditions: item (and thread), else wikilog, else namespace. */
  method AddScopeConds(conds: seq<Cond>, f: CommentFilter) returns (r: seq<Cond>)
    ensures r == conds + CommentScopeConds(f)
  {
    r := conds;
    if f.item.Some? {
      r := r + [Eq("wlc_post", IntVal(f.item.value.id))];
      if f.thread.Some? && TruthyString(f.thread.value) {
        r := r + [Raw(LikePrefix("wlc_thread", f.thread.value + "/"))];
      }
    } else if f.wikilog.Some? {
      r := r + [Eq("wlp_parent", IntVal(f.wikilog.value.articleId))];
    } else if f.namespace.Some? {
      r := r + [Eq("c.page_namespace", IntVal(f.namespace.value))];
    } else {
      assert r == conds + [];
    }
  }


  /** The whole descriptor for a filter state and the include-item switch. */
  method CompileCommentQuery(f: CommentFilter, includeItem: bool, db: Db) returns (info: QueryInfo)
    ensures info == CommentQueryInfo(f, includeItem, db)
  {
    var joinPosts := false;
    var tables, fields, joins := db.commentTables, db.commentFields, db.commentJoins;
    var options: map<string, SqlOption> := map[];
    if f.item.None? && f.wikilog.Some? {
      joinPosts := true;
    }
    var conds := CompileCommentConds(f);
    if includeItem {
      tables := tables + db.itemTables;
      joins := joins["wikilog_posts" := PostsJoin];
      joins := db.itemJoins + joins;
      fields := fields + db.itemFields;
    } else if joinPosts {
      tables := tables + ["wikilog_posts"];
      joins := joins["wikilog_posts" := PostsJoin];
    }
    info := QueryInfo(tables, fields, conds, options, joins);
  }

  /** The body of `getDefaultQuery`. */
  method DefaultCommentQuery(f: CommentFilter, wiki: Wiki) returns (query: seq<(string, Param)>)
    ensures query == CommentParams(f, wiki)
    ensures forall key :: ParamLookup(query, key) == CommentParam(f, wiki, key)
  {
    query := [];
    if f.item.Some? {
      query := query + [("item", PText(f.item.value.title.prefixedDbKey))];
    } else if f.wikilog.Some? {
      query := query + [("wikilog", PText(f.wikilog.value.prefixedDbKey))];
    } else if f.namespace.Some? {
      query := query + [("wikilog", PText(wiki.wildcardKey(f.namespace.value)))];
    }
    assert query == Entry("item", ItemKeyParam(f)) + Entry("wikilog", CommentWikilogParam(f, wiki));
    ghost var q1 := query;
    if f.modStatus != MsAll {
      query := query + [("show", PText(f.modStatus))];
    }
    assert query == q1 + Entry("show", CommentShowParam(f.modStatus));
    query := AddTextEntry(query, "author", f.author);
    query := AddDateEntries(query, f.date);
    forall key ensures ParamLookup(query, key) == CommentParam(f, wiki, key) {
      CommentParamsLookup(f, wiki, key);
    }
  }


  // ---------------------------------------------------------------------

  /** The argument of `setItem`: an article, a title (looked up by its page
      id, which may find nothing), or null. */
  datatype ItemArg = ItemObject(item: Item) | ItemTitle(title: Title) | ItemNull

  /** The argument of `setThread`: a list of path segments, a text, or
      null/false. */
  datatype ThreadArg = ThreadSegments(segments: seq<string>) | ThreadText(text: string) | ThreadNone

  function ItemOf(arg: ItemArg, wiki: Wiki): Option<Item> {
    match arg
    case ItemObject(item) => Some(item)
    case ItemTitle(t) => wiki.itemFromId(t.articleId)
    case ItemNull => None
  }

  function ThreadOf(arg: ThreadArg): Option<string> {
    match arg
    case ThreadSegments(segments) => Some(Implode("/", segments))
    case ThreadText(text) => Some(text)
    case ThreadNone => None
  }

  class WikilogCommentQuery {
    /** The inherited option store and "empty" flag. */
    const base: WikilogQuery

    var modStatus: string
    var namespace: Option<int>
    var wikilog: Option<Title>
    var item: Option<Item>
    var thread: Option<string>
    var author: Option<string>
    var date: Option<DateSpec>

    function Filter(): CommentFilter
      reads this, base
    {
      CommentFilter(modStatus, namespace, wikilog, item, thread, author, date, base.empty)
    }

    /** `new WikilogCommentQuery()`: status "all", no other filter. */
    constructor ()
      ensures fresh(base) && base.defaults == CommentDefaults && base.options == map[]
      ensures Filter() == InitialCommentFilter
    {
      base := new WikilogQuery(CommentDefaults);
      modStatus := MsAll;
      namespace := None;
      wikilog := None;
      item := None;
      thread := None;
      author := None;
      date := None;
    }

    /** `new WikilogCommentQuery($from)`: with a reference, the query is
        scoped by `setWikilogOrItem`, and construction throws when that
        does. */
    static method Create(from: Option<WikilogRef>, wiki: Wiki) returns (r: Result<WikilogCommentQuery, QueryError>)
      ensures r.Success? ==> fresh(r.value) && fresh(r.value.base) && r.value.base.defaults == CommentDefaults
      ensures r.Success? ==> r.value.base.options == map[]
      ensures from.None? ==> r.Success? && r.value.Filter() == InitialCommentFilter
      ensures from.Some? && ResolveRef(from.value, wiki).Failure? ==> r == Failure(NotWikilogObject)
      ensures from.Some? && ResolveRef(from.value, wiki).Success? ==>
        r.Success? && r.value.Filter() == WithScope(InitialCommentFilter, ResolveRef(from.value, wiki).value)
    {
      var q := new WikilogCommentQuery();
      if from.Some? {
        var outcome := q.SetWikilogOrItem(from.value, wiki);
        if outcome.Fail? {
          return Failure(outcome.error);
        }
      }
      r := Success(q);
    }

    /** `setWikilogOrItem($from)` */
    method SetWikilogOrItem(from: WikilogRef, wiki: Wiki) returns (r: Outcome<QueryError>)
      modifies this
      ensures ResolveRef(from, wiki).Failure? ==> r == Fail(NotWikilogObject) && Filter() == old(Filter())
      ensures ResolveRef(from, wiki).Success? ==>
        r == Pass && Filter() == WithScope(old(Filter()), ResolveRef(from, wiki).value)
    {
      var info: WikilogInfo;
      match from {
        case RefTitle(t) =>
          var found := wiki.wikilogInfo(t);
          if found.None? {
            return Fail(NotWikilogObject);
          }
          info := found.value;
        case RefInfo(i) =>
          info := i;
        case RefItem(i) =>
          item := Some(i);
          return Pass;
        case RefOther =>
          return Fail(NotWikilogObject);
      }
      if !info.isItem {
        wikilog := Some(info.title);
        return Pass;
      }
      var found := wiki.itemFromInfo(info);
      if found.None? {
        return Fail(NotWikilogObject);
      }
      item := found;
      r := Pass;
    }

    /** `setModStatus($modStatus)`: the state is untouched when it throws. */
    method SetModStatus(arg: Option<string>) returns (r: Outcome<QueryError>)
      modifies this
      ensures ParseModStatus(arg).Failure? ==> r == Fail(InvalidModStatus) && Filter() == old(Filter())
      ensures ParseModStatus(arg).Success? ==>
        r == Pass && Filter() == old(Filter()).(modStatus := ParseModStatus(arg).value)
    {
      if arg.None? {
        modStatus := MsAll;
      } else if arg.value in ModStatuses {
        modStatus := arg.value;
      } else {
        return Fail(InvalidModStatus);
      }
      r := Pass;
    }

    /** An integer namespace, or `false` (None) to drop the filter. */
    method SetNamespace(ns: Option<int>)
      modifies this
      ensures Filter() == old(Filter()).(namespace := ns)
    {
      namespace := ns;
    }

    method SetWikilog(title: Option<Title>)
      modifies this
      ensures Filter() == old(Filter()).(wikilog := title)
    {
      wikilog := title;
    }

    /** A title is turned into its article without checking the result. */
    method SetItem(arg: ItemArg, wiki: Wiki)
      modifies this
      ensures Filter() == old(Filter()).(item := ItemOf(arg, wiki))
    {
      match arg {
        case ItemObject(i) => item := Some(i);
        case ItemTitle(t) => item := wiki.itemFromId(t.articleId);
        case ItemNull => item := None;
      }
    }

    /** A list of segments is joined with "/". */
    method SetThread(arg: ThreadArg)
      modifies this
      ensures Filter() == old(Filter()).(thread := ThreadOf(arg))
    {
      match arg {
        case ThreadSegments(segments) => thread := Some(Implode("/", segments));
        case ThreadText(text) => thread := Some(text);
        case ThreadNone => thread := None;
      }
    }

    method SetAuthor(arg: Option<string>, wiki: Wiki)
      modifies this
      ensures Filter() == old(Filter()).(author := AuthorAfter(old(author), arg, wiki))
    {
      if arg.Some? {
        var t := wiki.makeTitleSafe(NsUser, arg.value);
        if t.Some? {
          author := wiki.canonicalName(t.value.text);
        }
      }
    }

    /** The date filter is replaced only when the date resolves to an interval. */
    method SetDate(year: int, month: int, day: int, today: Today)
      requires ValidToday(today)
      modifies this
      ensures var r := ResolveDate(year, month, day, today);
        Filter() == old(Filter()).(date := if r.Some? then r else old(date))
    {
      var y, m, d, interval := PartialDateToInterval(year, month, day, today);
      if interval.Some? {
        date := Some(DateSpec(y.value, m, d, interval.value.0, interval.value.1));
      }
    }

    /** `getQueryInfo($db, $opts)`: applies `$opts` to the option store for
        good (throwing as `setOptions` does), then builds the descriptor. */
    method GetQueryInfo(db: Db, opts: OptionsArg) returns (r: Result<QueryInfo, QueryError>)
      modifies base
      ensures opts.OptOther? ==> r == Failure(InvalidOptions) && base.options == old(base.options)
      ensures opts.OptName? ==> base.options == old(base.options)[opts.name := Bool(true)]
      ensures opts.OptArray? ==> base.options == Merge(old(base.options), opts.entries)
      ensures opts.OptNull? ==> base.options == old(base.options)
      ensures Filter() == old(Filter())
      ensures !opts.OptOther? ==>
        r == Success(CommentQueryInfo(Filter(), Truthy(base.GetOption(IncludeItem)), db))
    {
      var outcome := base.SetOptions(opts);
      if outcome.Fail? {
        return Failure(outcome.error);
      }
      var info := CompileCommentQuery(Filter(), Truthy(base.GetOption(IncludeItem)), db);
      r := Success(info);
    }

    /** `getDefaultQuery()` */
    method GetDefaultQuery(wiki: Wiki) returns (query: seq<(string, Param)>)
      ensures query == CommentParams(Filter(), wiki)
      ensures forall key :: ParamLookup(query, key) == CommentParam(Filter(), wiki, key)
    {
      query := DefaultCommentQuery(Filter(), wiki);
    }
  }
}
