# OrientDB Lucene result set, modelled in Dafny

This project models `OLuceneResultSet`, the set of records that OrientDB returns for a Lucene
full-text query, and its iterator. The model covers these parts:

- **Construction.** The result set runs the first search for one page of 10000 hits (sorted when
  the query context has a sort). It takes the count of deleted matches from the query context.
  It reads the highlighting options from the query metadata, with their defaults: no fields, the
  markers `<B>` and `</B>`, and 2 fragments.
- **Sizing.** `size()` is `max(0, totalHits - deletedMatchCount)`, and `isEmpty()` is
  `size() == 0`. Both throw NullPointerException when the first search failed. Every mutating or
  element-wise `java.util.Set` method throws UnsupportedOperationException.
- **Iteration.** The iterator pages through the hits. When a page is used up it searches after
  the page's last hit. It loads each hit's stored document and builds the record id from the
  document's RID field. It highlights the configured fields into the query context and announces
  the record to the index engine (`onRecordAddedToResultSet`). It skips a hit that the
  transaction deleted, or that the transaction updated when the document is not the
  transaction's own temporary entry. `hasNext()` compares the number of returned records with
  the size, and releases the searcher when iteration is over and the reader is shared.
  `remove()` does nothing.

## Modules and files

- `results.dfy` (`Results`): Option, and Result for values or the Java exceptions they stand for.
- `lucene.dfy` (`Lucene`): the Lucene values. The searcher is a record of given functions: search,
  search after a hit, document lookup and highlighting. `None` stands for the IOException (or
  InvalidTokenOffsetsException) that a call may throw.
- `highlight_config.dfy` (`HighlightConfig`): the highlighting options read from the metadata.
- `iteration.dfy` (`Iteration`): the iterator's behaviour as functions of its state. These cover
  fetching across pages, the skip decision, highlighting and announcing a hit, and the do-while
  loop of `next()`. Lemmas state what one call of `next()` does.
- `paging.dfy` (`Paging`): a searcher that pages through one fixed ranking. For it, the iterator
  reads that ranking in order, with no hit dropped or repeated at a page boundary, and `next()`
  returns the first hit that is not skipped.
- `result_set.dfy` (`ResultSet`): the classes `IndexEngine`, `QueryContext`, `LuceneResultSet`
  and `LuceneResultSetIterator`. Their fields are updated in place by methods, and each method is
  proved against the `Iteration` functions.
- `quirks.dfy` (`Quirks`): two behaviours of the code as written, each on a concrete result set.

## Behaviour as written

The model follows the code in these points, and a caller cannot rely on more. In particular, `size()` need not be the number of records that `next()` returns:

- **Sizing subtracts only deletions.** A record updated in the transaction is counted by `size()`
  and `hasNext()`, but `next()` skips its on-disk hit. `next()` can therefore run past the last
  hit and throw ArrayIndexOutOfBoundsException while `hasNext()` said true
  (`Quirks.SizeCountsSkippedUpdate`).
- **A failed search after a page replays the page.** `fetchNext` resets `localIndex` to 0 before
  `fetchMoreResult`. When the search throws an IOException, the old page stays and is read again
  from its first hit. The iteration does not end. If every hit on the page is skipped, `next()`
  never returns (`Quirks.NextCanLoopForever`).
- **Every converted hit is highlighted and announced, including skipped ones.** `toRecordId` runs
  before the skip decision. So the fragments go to the query context and
  `onRecordAddedToResultSet` runs for hits that are then skipped
  (`Iteration.RunNextAnnouncesEveryConvertedHit`).
- **A missing RID is not an error.** The record id is built from the stored RID field even when
  that field is absent (Java null).
- **The read position moves even when the read throws.** In `scoreDocs[localIndex++]`, the
  position is incremented before the out-of-range read throws.

## Model

| member | source | states |
|---|---|---|
| HighlightConfig.Resolve | lucene/src/main/java/com/orientechnologies/lucene/collections/OLuceneResultSet.java:71-83 | construction succeeds exactly when the highlight value is absent, null or a map whose four options are each absent, null or of the type the code casts it to; without a highlight map: no fields, `<B>`, `</B>`, 2 fragments; a highlight value that is not a map throws ClassCastException; each option is its given value when present and its default when absent or null; every failure is a ClassCastException on one of the five keys |
| HighlightConfig.ResolveKeepsGivenOptions | lucene/src/main/java/com/orientechnologies/lucene/collections/OLuceneResultSet.java:71-83 | options that are all given and well typed are taken exactly as given |
| HighlightConfig.ResolveRejectsMistypedOption | lucene/src/main/java/com/orientechnologies/lucene/collections/OLuceneResultSet.java:73-83 | a present option of the wrong type makes construction throw; it is never replaced by its default |
| Iteration.SearchAfter | lucene/src/main/java/com/orientechnologies/lucene/collections/OLuceneResultSet.java:270-273 | the search after a hit is the sorted variant exactly when the query context has a sort, and it always asks for PAGE_SIZE hits |
| Iteration.FirstBatch | lucene/src/main/java/com/orientechnologies/lucene/collections/OLuceneResultSet.java:86-99 | the first page is the sorted first search exactly when the query context has a sort, the unsorted one otherwise, each asking for PAGE_SIZE hits; None stands for the IOException it logs |
| Iteration.FetchMoreResult | lucene/src/main/java/com/orientechnologies/lucene/collections/OLuceneResultSet.java:263-281 | the page after the last hit of the current one, the old page kept when the search throws, ArrayIndexOutOfBoundsException on an empty page; characterised by `Iteration.FetchNextCases` |
| Iteration.FetchNext | lucene/src/main/java/com/orientechnologies/lucene/collections/OLuceneResultSet.java:216-223 | one `fetchNext` on the paging state; characterised by `Iteration.FetchNextCases` and `Paging.FetchNextFollowsRanking` |
| Iteration.IsTempMatch | lucene/src/main/java/com/orientechnologies/lucene/collections/OLuceneResultSet.java:295-297 | the document carries the TMP field; characterised by `Iteration.IsToSkip` |
| Iteration.IsDeleted | lucene/src/main/java/com/orientechnologies/lucene/collections/OLuceneResultSet.java:283-285 | the transaction's deletion test for the record and its document; characterised by `Iteration.IsToSkip` |
| Iteration.IsUpdatedDiskMatch | lucene/src/main/java/com/orientechnologies/lucene/collections/OLuceneResultSet.java:287-289 | the record was updated and the document is not the transaction's own entry; characterised by `Iteration.IsToSkip` |
| Iteration.Highlights | lucene/src/main/java/com/orientechnologies/lucene/collections/OLuceneResultSet.java:244-249 | the highlighting loop over the fields; characterised by `Iteration.HighlightsSpec` |
| Iteration.Convert | lucene/src/main/java/com/orientechnologies/lucene/collections/OLuceneResultSet.java:237-257 | `toRecordId` as a value; characterised by `Iteration.ConvertSpec` |
| Iteration.Round | lucene/src/main/java/com/orientechnologies/lucene/collections/OLuceneResultSet.java:206-211 | one pass of the do-while body; characterised by `Iteration.RoundFacts` and `Iteration.RoundFragments` |
| Iteration.RunNext | lucene/src/main/java/com/orientechnologies/lucene/collections/OLuceneResultSet.java:201-214 | the do-while loop of `next()` within a bound on its rounds: never more hits pulled than rounds, and all rounds used when the bound runs out; characterised by the `RunNext` lemmas below |
| Iteration.FetchNextCases | lucene/src/main/java/com/orientechnologies/lucene/collections/OLuceneResultSet.java:216-223 | inside the page: the hit at the position, and the position moves on by one; past the end: ArrayIndexOutOfBoundsException, with the position still moved on; at the end of an empty page: the exception, with the position reset to 0; at the end of a non-empty page: the first hit of the page found by the (sorted or unsorted) search after the last hit, or of the old page again when that search throws; a returned hit is always the one just before the new position |
| Iteration.IsToSkip | lucene/src/main/java/com/orientechnologies/lucene/collections/OLuceneResultSet.java:259-261 | a hit is skipped exactly when its record is deleted, or updated while the document has no TMP field; a record's own temporary entry is kept unless the record is deleted |
| Iteration.HighlightsSpec | lucene/src/main/java/com/orientechnologies/lucene/collections/OLuceneResultSet.java:244-249 | the highlighting loop adds one fragment set per field, in list order, up to the first field whose highlighting throws; it fails exactly when it stops early, and then at a field whose highlighting throws |
| Iteration.ConvertSpec | lucene/src/main/java/com/orientechnologies/lucene/collections/OLuceneResultSet.java:237-257 | `toRecordId` returns the id built from the RID field and announces the record exactly when highlighting succeeds, after one fragment set per highlighted field; otherwise it throws the wrapped exception and announces nothing; with no highlighted fields it adds nothing and never throws |
| Iteration.RoundFacts | lucene/src/main/java/com/orientechnologies/lucene/collections/OLuceneResultSet.java:206-211 | one pass of the do-while body: a skipped hit goes round again after announcing its record; a failed fetch ends it with nothing pulled; a missing document throws NullPointerException before anything is added; a kept hit ends it with its record |
| Iteration.RunNextYieldsFirstKept | lucene/src/main/java/com/orientechnologies/lucene/collections/OLuceneResultSet.java:206-213 | a `next()` that returns a record returns that of the last hit it pulled, which is not skipped; every hit pulled before it was skipped |
| Iteration.RunNextAnnouncesEveryConvertedHit | lucene/src/main/java/com/orientechnologies/lucene/collections/OLuceneResultSet.java:206-251 | every pulled hit is announced, with its loaded document and the id from its RID field, whether skipped or returned; only a hit whose document or highlighting fails is pulled without being announced, and then `next()` throws NullPointerException or the wrapped highlighting exception |
| Iteration.RunNextHighlightsEachAnnouncedHit | lucene/src/main/java/com/orientechnologies/lucene/collections/OLuceneResultSet.java:244-251 | the count of fragment sets: unless highlighting throws, one per highlighted field for every announced record; with no highlighted fields nothing is added and highlighting never throws |
| Iteration.RoundFragments | lucene/src/main/java/com/orientechnologies/lucene/collections/OLuceneResultSet.java:206-211 | the fragments one pass of the do-while body adds: all of its hit's highlighting when the record is announced (skipped or returned), the part before the failure when highlighting throws, none when the fetch or the document load fails |
| Iteration.RunNextHighlightsInOrder | lucene/src/main/java/com/orientechnologies/lucene/collections/OLuceneResultSet.java:206-251 | the fragments one `next()` adds are, in order, those of each announced record, each field highlighted in list order; when highlighting throws they are followed by the fragments of the fields before the failure, for the last hit pulled |
| Iteration.FragmentsInOrderCons | lucene/src/main/java/com/orientechnologies/lucene/collections/OLuceneResultSet.java:206-211 | a round that announces a record with that record's fragments, put in front of a run whose fragments are in order, gives a run whose fragments are in order |
| Iteration.RunNextFetchesInOrder | lucene/src/main/java/com/orientechnologies/lucene/collections/OLuceneResultSet.java:206-207 | the hits one `next()` pulls are those of as many consecutive `fetchNext` calls, none of which throws, and the paging state is the one they leave; when `next()` throws ArrayIndexOutOfBoundsException, one more fetch throws |
| Paging.Window | lucene/src/main/java/com/orientechnologies/lucene/collections/OLuceneResultSet.java:51 | a page holds at most PAGE_SIZE hits; it is empty exactly when it starts at the end of the ranking; a short page reaches the end |
| Paging.FirstPageStartsRanking | lucene/src/main/java/com/orientechnologies/lucene/collections/OLuceneResultSet.java:181-187 | a fresh iterator on the first page stands before the first hit of the ranking |
| Paging.FetchNextFollowsRanking | lucene/src/main/java/com/orientechnologies/lucene/collections/OLuceneResultSet.java:216-223 | for a searcher that pages through a ranking, a fetch reads the next hit of the ranking and moves past it, also across a page boundary; at the end of the ranking it throws |
| Paging.FetchesFollowRanking | lucene/src/main/java/com/orientechnologies/lucene/collections/OLuceneResultSet.java:216-223 | `k` fetches, each of which reads the hit at the current position and moves on by one, read the next `k` hits of the ranking in order |
| Paging.FetchesFailPastEnd | lucene/src/main/java/com/orientechnologies/lucene/collections/OLuceneResultSet.java:216-223 | such fetches throw when asked for more hits than the ranking has left |
| Paging.FetchedHitsFollowRanking | lucene/src/main/java/com/orientechnologies/lucene/collections/OLuceneResultSet.java:263-281 | hits read by `n` fetches that did not throw are the next `n` hits of the ranking; a further fetch throws only once the ranking is used up |
| Paging.RunNextFollowsRanking | lucene/src/main/java/com/orientechnologies/lucene/collections/OLuceneResultSet.java:201-223 | the hits one `next()` pulls are the next hits of the ranking, in order; it throws ArrayIndexOutOfBoundsException only when the ranking is used up; otherwise it leaves the iterator just after the last hit pulled |
| Paging.NextYieldsFirstKeptHit | lucene/src/main/java/com/orientechnologies/lucene/collections/OLuceneResultSet.java:201-214 | a `next()` that returns a record returns that of the first hit, from the iterator's position on, that is not skipped; every hit before it is skipped, and the iterator is left just after it |
| ResultSet.IndexEngine.OnRecordAddedToResultSet | lucene/src/main/java/com/orientechnologies/lucene/collections/OLuceneResultSet.java:251 | the record is appended to those announced so far |
| ResultSet.IndexEngine.Release | lucene/src/main/java/com/orientechnologies/lucene/collections/OLuceneResultSet.java:195 | one more release of the searcher |
| ResultSet.QueryContext.AddHighlightFragment | lucene/src/main/java/com/orientechnologies/lucene/collections/OLuceneResultSet.java:248 | the field's fragments are appended to those collected so far |
| ResultSet.SizeOf | lucene/src/main/java/com/orientechnologies/lucene/collections/OLuceneResultSet.java:164-167 | the size is never negative and never below `totalHits - deletedMatchCount`, and it is either 0 or that difference |
| ResultSet.HasNextWithinSize | lucene/src/main/java/com/orientechnologies/lucene/collections/OLuceneResultSet.java:189-191 | `hasNext()` holds exactly while fewer records were returned than the size; a fresh iterator has a next record exactly when the size is not 0 |
| ResultSet.LuceneResultSet.constructor | lucene/src/main/java/com/orientechnologies/lucene/collections/OLuceneResultSet.java:62-99 | the first page is the sorted or unsorted first search, absent when it throws; the deleted count is the query context's; the highlighting options are the configuration's |
| ResultSet.LuceneResultSet.Create | lucene/src/main/java/com/orientechnologies/lucene/collections/OLuceneResultSet.java:62-84 | construction throws the ClassCastException of a mistyped option, and otherwise builds a fresh result set with the resolved options |
| ResultSet.LuceneResultSet.Size | lucene/src/main/java/com/orientechnologies/lucene/collections/OLuceneResultSet.java:164-167 | the clamped difference of total hits and deleted matches; NullPointerException exactly when the first search failed |
| ResultSet.LuceneResultSet.IsEmpty | lucene/src/main/java/com/orientechnologies/lucene/collections/OLuceneResultSet.java:101-104 | empty exactly when there are no more hits than deleted matches; it throws as `size()` does |
| ResultSet.LuceneResultSet.Refuse | lucene/src/main/java/com/orientechnologies/lucene/collections/OLuceneResultSet.java:106-154 | each of the ten refused Set methods throws UnsupportedOperationException |
| ResultSet.LuceneResultSet.Iterator | lucene/src/main/java/com/orientechnologies/lucene/collections/OLuceneResultSet.java:169-172 | a fresh iterator on the first page, at position 0, having returned nothing; NullPointerException exactly when there is no first page |
| ResultSet.LuceneResultSetIterator.constructor | lucene/src/main/java/com/orientechnologies/lucene/collections/OLuceneResultSet.java:181-187 | the iterator starts on the first page at position 0, with the first search's total hits |
| ResultSet.LuceneResultSetIterator.HasNext | lucene/src/main/java/com/orientechnologies/lucene/collections/OLuceneResultSet.java:189-199 | true exactly while fewer records were returned than total hits less deleted matches; the searcher is released once exactly when the answer is false and the reader's reference count is above 1 |
| ResultSet.LuceneResultSetIterator.FetchMoreResult | lucene/src/main/java/com/orientechnologies/lucene/collections/OLuceneResultSet.java:263-281 | the page becomes the one found by the search after its last hit; it stays when that search throws; on an empty page it throws ArrayIndexOutOfBoundsException |
| ResultSet.LuceneResultSetIterator.FetchNext | lucene/src/main/java/com/orientechnologies/lucene/collections/OLuceneResultSet.java:216-223 | the hit returned (or exception thrown) and the new page and position are those `FetchNextCases` describes |
| ResultSet.LuceneResultSetIterator.ToRecordId | lucene/src/main/java/com/orientechnologies/lucene/collections/OLuceneResultSet.java:237-257 | the fragments added to the query context, the record announced to the engine and the id returned or exception thrown are those `ConvertSpec` describes |
| ResultSet.LuceneResultSetIterator.NextRound | lucene/src/main/java/com/orientechnologies/lucene/collections/OLuceneResultSet.java:206-211 | one pass of the do-while body has the effects `RoundFacts` describes, and goes round again exactly when the hit is skipped |
| ResultSet.LuceneResultSetIterator.Next | lucene/src/main/java/com/orientechnologies/lucene/collections/OLuceneResultSet.java:201-214 | the returned record or thrown exception, the new paging state, the fragments added and the records announced are those of the whole loop, about which the `RunNext` lemmas above are proved; the count of returned records goes up by one exactly when a record is returned |
| ResultSet.LuceneResultSetIterator.Remove | lucene/src/main/java/com/orientechnologies/lucene/collections/OLuceneResultSet.java:299-302 | nothing changes |
| Quirks.SizeCountsSkippedUpdate | lucene/src/main/java/com/orientechnologies/lucene/collections/OLuceneResultSet.java:164-167 | a record updated in the transaction counts towards the size, yet `next()` skips its hit (after announcing it) and then throws ArrayIndexOutOfBoundsException |
| Quirks.NextCanLoopForever | lucene/src/main/java/com/orientechnologies/lucene/collections/OLuceneResultSet.java:263-281 | when the search after the page keeps throwing and every hit on the page is skipped, `next()` goes round without end |

## Left out

- Telemetry is not modelled. `sendLookupTime` and the `sendTotalHits` call in the iterator's constructor only report counters.
- Logging of the caught IOExceptions is not modelled. Only their effect is kept: no first page, a missing document, or the old page kept.
- Lucene itself is not modelled. Searching, loading stored documents, building token streams and choosing fragments are given functions. The `QueryTermScorer` and `SimpleHTMLFormatter` wiring becomes a `Highlighter` value that holds the two markers.
- Only the exceptions the code catches or causes are modelled: IOException, InvalidTokenOffsetsException, the null dereferences and the out-of-range reads. Other runtime exceptions from Lucene are not.
- The query is not modelled. It is fixed for the result set's lifetime, so the searcher functions stand for searches with that query.
- The names of the RID and TMP fields are constants of other classes. They are fields of the index engine and the query context here.
- `calculateDeletedMatch` is not modelled beyond its result. The query context computes the deleted-match count, and here that count is a given number.
- Java `int` arithmetic is not modelled. `index++`, `totalHits - deletedMatchCount` and the position use unbounded integers, so 32-bit wrap-around after 2^31 records is not represented.
- The reference count is not modelled as shared state. `hasNext` receives the reader's reference count as a parameter, and concurrent use of the shared reader is not modelled.
- `ResultSet.LuceneResultSetIterator.Next`: it requires a ghost bound on the number of loop rounds within which the loop ends. The Java loop need not end (`Quirks.NextCanLoopForever`), so `next()` is modelled only for calls that end.
- `Iteration.RunNext`: the loop is a function of a round budget. Running out of the budget is an outcome of the model only, not of the code.
- `HighlightConfig.Resolve`: the unchecked cast `(List<String>)` is not modelled element by element. A list value is taken as a list of strings.
- `Paging`: a searcher that pages through one fixed ranking is an assumption about Lucene's search-after, stated as the predicate `Paginates`. Searchers that do not page this way are covered only by the `Iteration` lemmas.
