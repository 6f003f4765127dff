/**
 * Concrete class hierarchies run through `build_tables`: joined-table
 * inheritance sharing one physical table, and the effect of the order in
 * which the classes are pending.
 */
module Scenarios {
  import opened Wrappers
  import opened OrderedMap
  import opened Classes
  import opened VersioningManager
  import opened TableBuilding

  const Article := ClassId("Article")
  const BlogArticle := ClassId("BlogArticle")
  const NewsArticle := ClassId("NewsArticle")
  const ArticleTable := TableId("article")

  /** `Article` and its two subclasses, all versioned and mapped to the `article` table. */
  function Articles(c: ClassId): ClassInfo
  {
    var mro := if c == BlogArticle || c == NewsArticle then [c, Article] else [c];
    ClassInfo(mro, ArticleTable, Some(VersionedArgs(false)), true, true, [], BaseId("Base"), MetadataId("md"))
  }

  function TablesAfter(pending: seq<ClassId>): TableMap
  {
    BuildTables(Articles, Initial.(pending := pending)).tables
  }

  /** A subclass sharing its parent's table extends the parent's entry; both resolve to it. */
  lemma SubclassMergedIntoParentEntry()
    ensures var t := Merged(BlogArticle, ArticleTable, Fresh(Article, ArticleTable));
            && TablesAfter([Article, BlogArticle]) == [(Article, t)]
            && ClosestMatchingTable(Articles, TablesAfter([Article, BlogArticle]), BlogArticle) == Some(t)
            && ClosestMatchingTable(Articles, TablesAfter([Article, BlogArticle]), Article) == Some(t)
  {
    var m0 := Initial.(pending := [Article, BlogArticle]);
    var m1 := StoreTable(Articles, m0, Article);
    assert m1.tables == [(Article, Fresh(Article, ArticleTable))];
    assert FirstInheritedKey(Articles, [Article], BlogArticle) == Some(Article);
    var m2 := StoreTable(Articles, m1, BlogArticle);
    assert BuildTablesOver(Articles, [BlogArticle], m1) == m2;
  }

  /** Sibling subclasses pending in either order still leave a single entry, keyed by the parent. */
  lemma SiblingOrderKeepsOneEntry()
    ensures Keys(TablesAfter([Article, BlogArticle, NewsArticle])) == [Article]
    ensures Keys(TablesAfter([Article, NewsArticle, BlogArticle])) == [Article]
  {
    SiblingsAfterParent(BlogArticle, NewsArticle);
    SiblingsAfterParent(NewsArticle, BlogArticle);
  }

  lemma SiblingsAfterParent(a: ClassId, b: ClassId)
    requires a in {BlogArticle, NewsArticle} && b in {BlogArticle, NewsArticle}
    ensures Keys(TablesAfter([Article, a, b])) == [Article]
  {
    var m0 := Initial.(pending := [Article, a, b]);
    var m1 := StoreTable(Articles, m0, Article);
    assert Keys(m1.tables) == [Article];
    var m2 := StoreTable(Articles, m1, a);
    SubclassJoinsParentEntry(m1, a);
    SubclassJoinsParentEntry(m2, b);
    assert BuildTablesOver(Articles, [Article, a, b], m0) == BuildTablesOver(Articles, [a, b], m1);
    assert BuildTablesOver(Articles, [a, b], m1) == BuildTablesOver(Articles, [b], m2);
  }

  /** With the parent as the only key, storing a subclass keeps it the only key. */
  lemma SubclassJoinsParentEntry(m: Manager, a: ClassId)
    requires a in {BlogArticle, NewsArticle} && Keys(m.tables) == [Article]
    ensures Keys(StoreTable(Articles, m, a).tables) == [Article]
  {
    assert SharesTable(Articles, a, Article);
    assert FirstInheritedKey(Articles, [Article], a) == Some(Article);
  }

  /**
   * Merging depends on the parent being pending first: a subclass pending
   * before its parent gets its own entry, and so does the parent.
   */
  lemma SubclassBeforeParentGetsOwnEntry()
    ensures Keys(TablesAfter([BlogArticle, Article])) == [BlogArticle, Article]
  {
    var m0 := Initial.(pending := [BlogArticle, Article]);
    var m1 := StoreTable(Articles, m0, BlogArticle);
    assert Keys(m1.tables) == [BlogArticle];
    assert !IsSubclass(Articles, Article, BlogArticle);
    assert FirstInheritedKey(Articles, [BlogArticle], Article) == None;
    var m2 := StoreTable(Articles, m1, Article);
    assert BuildTablesOver(Articles, [Article], m1) == m2;
  }
}
