/** The public wiki page: the article list is filtered by a case-insensitive
    search over title and description and by the selected category. The
    page's lower-casing is a parameter (`lower`), since Unicode case mapping
    is outside this model. */
module WikiIndex {
  import opened Text

  datatype Article = Article(id: nat, title: string, category: string, description: string, content: string)

  /** The pseudo-category "All". */
  const AllCategories: string := "Все"
  const Categories: seq<string> := [AllCategories, "Основное", "Гайды", "Механики", "Кастомные предметы", "Развлекательные ивенты"]

  /** An article passes when the lowered query occurs in its lowered title
      or lowered description, and the category is "All" or its own. */
  predicate Matches(a: Article, query: string, category: string, lower: string -> string) {
    (Contains(lower(a.title), lower(query)) || Contains(lower(a.description), lower(query)))
    && (category == AllCategories || a.category == category)
  }

  /** `filteredArticles`: the passing articles, in their original order. */
  function FilteredArticles(articles: seq<Article>, query: string, category: string, lower: string -> string): (r: seq<Article>)
    ensures IsSublist(r, articles)
    ensures forall a :: a in r <==> a in articles && Matches(a, query, category, lower)
    ensures forall a :: multiset(r)[a] == if Matches(a, query, category, lower) then multiset(articles)[a] else 0
  {
    if articles == [] then []
    else
      var rest := FilteredArticles(articles[1..], query, category, lower);
      assert articles == [articles[0]] + articles[1..];
      if Matches(articles[0], query, category, lower) then
        var r := [articles[0]] + rest;
        assert r[1..] == rest;
        r
      else rest
  }

  /** With an empty query and the "All" category nothing is filtered out. */
  lemma {:induction false} EmptyQueryKeepsAll(articles: seq<Article>, lower: string -> string)
    requires lower("") == ""
    ensures FilteredArticles(articles, "", AllCategories, lower) == articles
  {
    if articles != [] {
      EmptyQueryKeepsAll(articles[1..], lower);
      EmptyQueryMatches(articles[0], lower);
      assert articles == [articles[0]] + articles[1..];
    }
  }

  /** One article under the empty query and the "All" category. */
  lemma EmptyQueryMatches(a: Article, lower: string -> string)
    requires lower("") == ""
    ensures Matches(a, "", AllCategories, lower)
  {
    assert StartsWith(lower(a.title), "");
  }

  /** Under a real category, an empty query keeps exactly the articles of
      that category. */
  lemma {:induction false} EmptyQuerySelectsCategory(articles: seq<Article>, category: string, lower: string -> string)
    requires lower("") == ""
    ensures forall a :: a in FilteredArticles(articles, "", category, lower) <==>
                        a in articles && (category == AllCategories || a.category == category)
  {
    forall a | a in articles
      ensures Contains(lower(a.title), lower(""))
    {
      assert StartsWith(lower(a.title), "");
    }
  }

  /** The body of an article is never searched: changing it does not change
      whether the article passes. */
  lemma ContentNotSearched(a: Article, body: string, query: string, category: string, lower: string -> string)
    ensures Matches(a.(content := body), query, category, lower) == Matches(a, query, category, lower)
  {
  }

  /** The category list without the "All" entry. */
  function RealCategories(cats: seq<string>): (r: seq<string>)
    ensures |r| <= |cats|
    ensures AllCategories !in r
    ensures forall c :: c in r <==> c in cats && c != AllCategories
  {
    if cats == [] then []
    else if cats[0] == AllCategories then RealCategories(cats[1..])
    else [cats[0]] + RealCategories(cats[1..])
  }

  /** The sidebar count `categories.length - 1` is the number of real
      categories: "All" is listed exactly once, first. */
  lemma CategoryCountExcludesAll()
    ensures |Categories| - 1 == |RealCategories(Categories)|
  {
    assert Categories == [AllCategories] + Categories[1..];
    assert forall i :: 1 <= i < |Categories| ==> Categories[i] != AllCategories;
    RealCategoriesWithoutAll(Categories[1..]);
  }

  lemma {:induction false} RealCategoriesWithoutAll(cats: seq<string>)
    requires AllCategories !in cats
    ensures RealCategories(cats) == cats
  {
    if cats != [] {
      RealCategoriesWithoutAll(cats[1..]);
      assert cats == [cats[0]] + cats[1..];
    }
  }

  /** The page's inputs: the search box, the chosen category, the open article. */
  datatype PageState = PageState(query: string, category: string, selected: Option<Article>)

  /** What the main column shows: the open article, or the filtered list. */
  datatype View = ArticleView(article: Article) | ListView(shown: seq<Article>)

  function CurrentView(st: PageState, articles: seq<Article>, lower: string -> string): (v: View)
    ensures st.selected.Some? <==> v.ArticleView?
    ensures v.ListView? ==> v.shown == FilteredArticles(articles, st.query, st.category, lower)
  {
    match st.selected
    case Some(a) => ArticleView(a)
    case None => ListView(FilteredArticles(articles, st.query, st.category, lower))
  }

  /** Clicking a category selects it and closes any open article; the query is kept. */
  function SelectCategory(st: PageState, category: string): (next: PageState)
    ensures next.category == category && next.selected.None? && next.query == st.query
  {
    PageState(st.query, category, None)
  }

  /** After a category click the page lists the articles passing the current
      query under the new category, whatever was open before. */
  lemma SelectCategoryShowsList(st: PageState, category: string, articles: seq<Article>, lower: string -> string)
    ensures CurrentView(SelectCategory(st, category), articles, lower)
         == ListView(FilteredArticles(articles, st.query, category, lower))
  {
  }
}
