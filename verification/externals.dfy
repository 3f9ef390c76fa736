/** The MediaWiki and Wikilog objects the query classes receive or look up.
    Only what the queries read from them is kept; every lookup the source
    makes through a static call is a function supplied by the caller. */
module Externals {
  import opened Wrappers

  /** MediaWiki's namespace numbers for user pages and categories. */
  const NsUser: int := 2
  const NsCategory: int := 14

  /** A page title (`Title`): namespace, text, database key, prefixed
      database key and page id. */
  datatype Title = Title(namespace: int, text: string, dbKey: string, prefixedDbKey: string, articleId: int)

  /** A wikilog article (`WikilogItem`): its page id and title. */
  datatype Item = Item(id: int, title: Title)

  /** `WikilogInfo`: whether a page is a wikilog article, and the title of
      its wikilog. */
  datatype WikilogInfo = WikilogInfo(isItem: bool, title: Title)

  /** The lookups the source performs on the wiki:
      `Title::makeTitleSafe`, `User::getCanonicalName` (None for `false`),
      `Wikilog::getWikilogInfo`, `WikilogItem::newFromInfo`,
      `WikilogItem::newFromID` (None for `null`), and the prefixed key of
      `Title::makeTitle($ns, "*")`. */
  datatype Wiki = Wiki(
    makeTitleSafe: (int, string) -> Option<Title>,
    canonicalName: string -> Option<string>,
    wikilogInfo: Title -> Option<WikilogInfo>,
    itemFromInfo: WikilogInfo -> Option<Item>,
    itemFromId: int -> Option<Item>,
    wildcardKey: int -> string)
}
