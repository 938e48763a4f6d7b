/** The fields of a scraped security-news article that the knowledge graph,
    the prediction heuristics and the chat rules read. */
module Articles {
  import opened Wrappers

  /** `published_at` is an abstract instant (seconds); author, tags, embedding
      and the other scraper fields are not read by the core and are left out. */
  datatype Article = Article(
    id: string,
    title: string,
    url: string,
    content: string,
    summary: Option<string>,
    publishedAt: int,
    categories: seq<string>,
    threatActors: seq<string>,
    vulnerabilities: seq<string>,
    relatedArticleIds: seq<string>)

  /** The field bounds the article model validates: a title of 1 to 500
      characters, a non-empty url and a summary of at most 1000 characters. */
  predicate ValidArticle(a: Article) {
    && 1 <= |a.title| <= 500
    && a.url != []
    && (a.summary.Some? ==> |a.summary.value| <= 1000)
  }
}
