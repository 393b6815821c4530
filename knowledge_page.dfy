/** The knowledge-base page: the category filter, the grouping of articles by
    category, and the search that falls back to a reload for a blank query. */
module KnowledgePage {

  import opened Common

  datatype Category = Category(id: string, name: string)

  /** A published article; `categoryId` is `None` when the column is null. */
  datatype Article = Article(id: string, title: string, categoryId: Option<string>)

  /** A category with its articles, as the page lists it. */
  datatype CategoryGroup = CategoryGroup(category: Category, articles: seq<Article>)

  /** A selection is in force when it is set and non-empty (`""` is falsy). */
  predicate Selected(selected: Option<string>) {
    selected.Some? && selected.value != ""
  }

  /** The articles of one category, in list order. */
  function ArticlesIn(articles: seq<Article>, categoryId: string): (r: seq<Article>)
    ensures forall i :: 0 <= i < |r| ==> r[i].categoryId == Some(categoryId)
    ensures forall i :: 0 <= i < |articles| && articles[i].categoryId == Some(categoryId) ==> articles[i] in r
    ensures multiset(r) <= multiset(articles)
  {
    var p := (a: Article) => a.categoryId == Some(categoryId);
    FilterMembers(articles, p);
    Filter(articles, p)
  }

  /** `filteredArticles`: every article with no selection, otherwise exactly the
      articles of the selected category. */
  function FilteredArticles(articles: seq<Article>, selected: Option<string>): (r: seq<Article>)
    ensures !Selected(selected) ==> r == articles
    ensures Selected(selected) ==>
      (forall i :: 0 <= i < |r| ==> r[i].categoryId == selected) &&
      (forall i :: 0 <= i < |articles| && articles[i].categoryId == selected ==> articles[i] in r)
    ensures multiset(r) <= multiset(articles)
  {
    if Selected(selected) then ArticlesIn(articles, selected.value) else articles
  }

  /** `articlesByCategory`: the categories in their order, each with its
      articles, leaving out the categories that have none. */
  function ArticlesByCategory(categories: seq<Category>, filtered: seq<Article>): (r: seq<CategoryGroup>)
    ensures forall g :: g in r ==>
      g.category in categories && |g.articles| > 0 && g.articles == ArticlesIn(filtered, g.category.id)
    ensures forall c :: c in categories && |ArticlesIn(filtered, c.id)| > 0 ==>
      CategoryGroup(c, ArticlesIn(filtered, c.id)) in r
  {
    if categories == [] then []
    else
      var c := categories[0];
      var rest := ArticlesByCategory(categories[1..], filtered);
      var articles := ArticlesIn(filtered, c.id);
      assert categories == [c] + categories[1..];
      (if |articles| > 0 then [CategoryGroup(c, articles)] else []) + rest
  }

  function GroupCategories(groups: seq<CategoryGroup>): (r: seq<Category>)
    ensures |r| == |groups|
    ensures forall i :: 0 <= i < |groups| ==> r[i] == groups[i].category
  {
    seq(|groups|, i requires 0 <= i < |groups| => groups[i].category)
  }

  predicate HasArticles(filtered: seq<Article>, c: Category) {
    |ArticlesIn(filtered, c.id)| > 0
  }

  /** The categories that have articles, in category order. */
  function CategoriesWithArticles(categories: seq<Category>, filtered: seq<Article>): (r: seq<Category>)
    ensures forall i :: 0 <= i < |r| ==> r[i] in categories && HasArticles(filtered, r[i])
    ensures forall i :: 0 <= i < |categories| && HasArticles(filtered, categories[i]) ==> categories[i] in r
  {
    if categories == [] then []
    else
      (if HasArticles(filtered, categories[0]) then [categories[0]] else []) +
      CategoriesWithArticles(categories[1..], filtered)
  }

  /** The groups follow the category order: their categories are the categories
      with articles, in order. */
  lemma {:induction false} GroupsFollowCategoryOrder(categories: seq<Category>, filtered: seq<Article>)
    ensures GroupCategories(ArticlesByCategory(categories, filtered)) == CategoriesWithArticles(categories, filtered)
  {
    if categories != [] {
      GroupsFollowCategoryOrder(categories[1..], filtered);
      var c := categories[0];
      var articles := ArticlesIn(filtered, c.id);
      var head: seq<CategoryGroup> := if |articles| > 0 then [CategoryGroup(c, articles)] else [];
      var rest := ArticlesByCategory(categories[1..], filtered);
      assert ArticlesByCategory(categories, filtered) == head + rest;
      assert CategoriesWithArticles(categories, filtered) ==
        (if |articles| > 0 then [c] else []) + CategoriesWithArticles(categories[1..], filtered);
      assert GroupCategories(head) == if |articles| > 0 then [c] else [];
      GroupCategoriesAppend(head, rest);
    }
  }

  lemma GroupCategoriesAppend(a: seq<CategoryGroup>, b: seq<CategoryGroup>)
    ensures GroupCategories(a + b) == GroupCategories(a) + GroupCategories(b)
  {
  }

  /** An article whose category is none of the listed categories (or null)
      appears in no group. */
  lemma {:induction false} UncategorisedNotListed(categories: seq<Category>, filtered: seq<Article>, a: Article)
    requires forall i :: 0 <= i < |categories| ==> a.categoryId != Some(categories[i].id)
    ensures forall i :: 0 <= i < |ArticlesByCategory(categories, filtered)| ==>
      a !in ArticlesByCategory(categories, filtered)[i].articles
  {
    var r := ArticlesByCategory(categories, filtered);
    forall i | 0 <= i < |r|
      ensures a !in r[i].articles
    {
      var k :| 0 <= k < |categories| && categories[k] == r[i].category;
      assert a.categoryId != Some(r[i].category.id);
    }
  }

  /** With no selection, every article of a listed category is shown under it. */
  lemma {:induction false} NoSelectionListsAll(categories: seq<Category>, articles: seq<Article>, i: nat)
    requires i < |articles| && articles[i].categoryId.Some?
    requires exists k :: 0 <= k < |categories| && categories[k].id == articles[i].categoryId.value
    ensures exists g :: g in ArticlesByCategory(categories, FilteredArticles(articles, None)) &&
                        articles[i] in g.articles
  {
    var k :| 0 <= k < |categories| && categories[k].id == articles[i].categoryId.value;
    var g := CategoryGroup(categories[k], ArticlesIn(articles, categories[k].id));
    assert articles[i] in g.articles;
  }

  // ---------------------------------------------------------------------------
  // Search
  // ---------------------------------------------------------------------------

  /** What a click on "search" does. */
  datatype SearchAction = Reload | SearchRpc(query: string)

  /** A query that trims to empty reloads; any other is sent as typed. */
  function SearchActionFor(query: string): (r: SearchAction)
    ensures r == Reload <==> IsBlank(query)
    ensures r.SearchRpc? ==> r.query == query
  {
    TrimEmptyIffBlank(query);
    if Trim(query) == "" then Reload else SearchRpc(query)
  }

  /** The page state that loading and searching change. */
  class KnowledgePageState {
    var articles: seq<Article>
    var categories: seq<Category>
    var loading: bool
    var searchQuery: string
    var selectedCategory: Option<string>

    constructor()
      ensures articles == [] && categories == [] && loading && searchQuery == "" && selectedCategory.None?
    {
      articles := [];
      categories := [];
      loading := true;
      searchQuery := "";
      selectedCategory := None;
    }

    /** `fetchData`: the categories and the published articles, none when a
        query gives nothing. */
    method Load(categoriesData: Option<seq<Category>>, articlesData: Option<seq<Article>>)
      modifies this
      ensures categories == categoriesData.GetOr([]) && articles == articlesData.GetOr([])
      ensures !loading && searchQuery == old(searchQuery) && selectedCategory == old(selectedCategory)
    {
      loading := true;
      categories := categoriesData.GetOr([]);
      articles := articlesData.GetOr([]);
      loading := false;
    }

    /** `handleSearch`. A blank query reloads (`categoriesData`, `articlesData`).
        Otherwise `search_knowledge` is called with the query. Any array it
        returns, the empty one included, is truthy: the articles become the rows
        fetched for its ids (`fullArticles`). Only a null result keeps the list. */
    method HandleSearch(categoriesData: Option<seq<Category>>, articlesData: Option<seq<Article>>,
                        hits: Option<seq<string>>, fullArticles: Option<seq<Article>>)
      returns (action: SearchAction)
      modifies this
      ensures action == SearchActionFor(old(searchQuery))
      ensures action == Reload ==>
        categories == categoriesData.GetOr([]) && articles == articlesData.GetOr([])
      ensures action.SearchRpc? ==> categories == old(categories)
      ensures action.SearchRpc? && hits.Some? ==> articles == fullArticles.GetOr([])
      ensures action.SearchRpc? && hits.None? ==> articles == old(articles)
      ensures !loading && searchQuery == old(searchQuery) && selectedCategory == old(selectedCategory)
    {
      action := SearchActionFor(searchQuery);
      if action == Reload {
        Load(categoriesData, articlesData);
        return;
      }
      loading := true;
      if hits.Some? {
        articles := fullArticles.GetOr([]);
      }
      loading := false;
    }

    /** The reset button: the query is cleared and the page reloads. */
    method Reset(categoriesData: Option<seq<Category>>, articlesData: Option<seq<Article>>)
      modifies this
      ensures searchQuery == ""
      ensures categories == categoriesData.GetOr([]) && articles == articlesData.GetOr([])
      ensures !loading && selectedCategory == old(selectedCategory)
    {
      searchQuery := "";
      Load(categoriesData, articlesData);
    }
  }
}
