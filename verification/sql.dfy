/** The query descriptor `getQueryInfo` returns (the arguments of
    `Database::select`) and the parts of the database layer it is built from. */
module Sql {
  import opened Wrappers

  /** A value compared against a column by a keyed condition. */
  datatype Value = IntVal(i: int) | StrVal(s: string)

  /** A value quoted by `$db->addQuotes`: a plain string, or a timestamp
      first converted by `$db->timestamp`. */
  datatype Quoted = Literal(s: string) | Timestamp(ts: string)

  /** A raw SQL predicate: literal text, `column op quoted-value`, or
      `column LIKE 'prefix%'` as built by `$db->buildLike($prefix, $db->anyString())`. */
  datatype Expr = Text(sql: string) | Compare(column: string, op: string, value: Quoted) | LikePrefix(column: string, prefix: string)

  /** One entry of the `conds` array: a string key (column = value) or a
      numeric key (raw predicate). */
  datatype Cond = Eq(column: string, value: Value) | Raw(expr: Expr)

  /** One entry of `join_conds`: join kind and ON clause. */
  datatype JoinCond = JoinCond(kind: string, on: string)

  /** The value of a query option: a single column or a list of columns. */
  datatype SqlOption = Column(name: string) | Columns(names: seq<string>)

  datatype QueryInfo = QueryInfo(
    tables: seq<string>,
    fields: seq<string>,
    conds: seq<Cond>,
    options: map<string, SqlOption>,
    joinConds: map<string, JoinCond>)

  /** What the database handle and the entity classes contribute:
      `$db->implicitGroupby()`, `WikilogItem::selectTables/selectFields`
      (also `selectFields(true)` for GROUP BY) and
      `WikilogComment::selectTables/selectFields`. */
  datatype Db = Db(
    implicitGroupby: bool,
    itemTables: seq<string>,
    itemJoins: map<string, JoinCond>,
    itemFields: seq<string>,
    itemGroupbyFields: seq<string>,
    commentTables: seq<string>,
    commentJoins: map<string, JoinCond>,
    commentFields: seq<string>)

  /** The condition `'0=1'` a forced-empty query adds: no row satisfies it. */
  const AlwaysFalse: Cond := Raw(Text("0=1"))

  /** The columns of the keyed conditions. */
  function Keys(conds: seq<Cond>): set<string> {
    set c | c in conds && c.Eq? :: c.column
  }

  /** A column no equality condition names is not a key. */
  lemma NotKey(conds: seq<Cond>, column: string)
    requires forall c | c in conds && c.Eq? :: c.column != column
    ensures column !in Keys(conds)
  {
  }
}
