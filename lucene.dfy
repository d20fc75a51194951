/**
  The values the result set exchanges with the Lucene library, and the library calls it makes,
  as given functions. None of the library's own behaviour is modelled: a search, a stored-document
  lookup or a highlighting run is whatever the given function answers, and `None` stands for the
  IOException (or, for highlighting, InvalidTokenOffsetsException) that the call may throw.
*/
module Lucene {
  import opened Results

  /** One hit: the document number and its score. */
  datatype ScoreDoc = ScoreDoc(doc: int, score: real)

  /** A page of hits together with the total number of hits of the query. */
  datatype TopDocs = TopDocs(totalHits: nat, scoreDocs: seq<ScoreDoc>)

  /** A stored document, as its map from field name to stored value. */
  datatype Document = Document(fields: map<string, string>) {
    /** `Document.get`: the stored value, or None (Java null) when the field is absent. */
    function Get(name: string): (v: Option<string>)
      ensures v.Some? <==> name in fields
      ensures v.Some? ==> v.value == fields[name]
    {
      if name in fields then Some(fields[name]) else None
    }
  }

  /** A sort order set on the query; absent means relevance order. */
  datatype Sort = Sort(fields: seq<string>)

  /** One highlighted excerpt, as produced by the highlighter. */
  datatype TextFragment = TextFragment(text: string)

  /** The highlighter as configured: the markers put around matched terms. */
  datatype Highlighter = Highlighter(startElement: string, endElement: string)

  /**
    The index searcher of the query context. `search`/`searchSorted` run the query,
    `searchAfter`/`searchAfterSorted` run it again for the hits after a given hit (each with a
    page size), `doc` loads a stored document, and `bestTextFragments` stands for obtaining the
    token stream of a field and asking the highlighter for its best fragments.
  */
  datatype Searcher = Searcher(
    search: int -> Option<TopDocs>,
    searchSorted: (int, Sort) -> Option<TopDocs>,
    searchAfter: (ScoreDoc, int) -> Option<TopDocs>,
    searchAfterSorted: (ScoreDoc, int, Sort) -> Option<TopDocs>,
    doc: int -> Option<Document>,
    bestTextFragments: (Highlighter, int, Document, string, int) -> Option<seq<TextFragment>>)
}
