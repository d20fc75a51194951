/**
  The iterator of the result set as functions of its state: fetching the next hit across page
  boundaries, deciding whether a hit is skipped, highlighting a hit and announcing it to the
  engine, and the whole pull loop of `next()`. The class `LuceneResultSetIterator` in
  result_set.dfy is proved to do exactly what these functions say.
*/
module Iteration {
  import opened Results
  import opened Lucene

  /** Number of hits asked of the searcher for every page. */
  const PAGE_SIZE: nat := 10000

  /** The record id built from the document's stored RID field; the field may be absent. */
  datatype ContextualRecordId = ContextualRecordId(rid: Option<string>)

  /**
    What the iterator reads but never changes: the searcher and the sort of the query context,
    the transaction's deletion and update oracles, the names of the stored RID and TMP fields,
    and the highlighting options of the result set.
  */
  datatype Env = Env(
    searcher: Searcher,
    sort: Option<Sort>,
    isDeleted: (Document, ContextualRecordId) -> bool,
    isUpdated: ContextualRecordId -> bool,
    ridField: string,
    tmpField: string,
    highlighted: seq<string>,
    highlighter: Highlighter,
    maxNumFragments: int)

  /** The paging state of the iterator: the current page and the position in it. */
  datatype Cursor = Cursor(page: seq<ScoreDoc>, localIndex: nat)

  /** The first page, as the constructor fetches it; None when the search throws. */
  function FirstBatch(searcher: Searcher, sort: Option<Sort>): (td: Option<TopDocs>)
    ensures sort.None? ==> td == searcher.search(PAGE_SIZE)
    ensures sort.Some? ==> td == searcher.searchSorted(PAGE_SIZE, sort.value)
  {
    match sort
    case None => searcher.search(PAGE_SIZE)
    case Some(s) => searcher.searchSorted(PAGE_SIZE, s)
  }

  /** The page after the hit `after`, sorted if and only if the query has a sort. */
  function SearchAfter(env: Env, after: ScoreDoc): (td: Option<TopDocs>)
    ensures env.sort.None? ==> td == env.searcher.searchAfter(after, PAGE_SIZE)
    ensures env.sort.Some? ==> td == env.searcher.searchAfterSorted(after, PAGE_SIZE, env.sort.value)
  {
    match env.sort
    case None => env.searcher.searchAfter(after, PAGE_SIZE)
    case Some(s) => env.searcher.searchAfterSorted(after, PAGE_SIZE, s)
  }

  /**
    `fetchMoreResult`: the page that replaces `page`. Reading the last hit of an empty page throws;
    an IOException of the search is logged and leaves the old page in place.
  */
  function FetchMoreResult(env: Env, page: seq<ScoreDoc>): Result<seq<ScoreDoc>>
  {
    if page == [] then Failure(ArrayIndexOutOfBounds)
    else match SearchAfter(env, page[|page| - 1])
      case Some(td) => Success(td.scoreDocs)
      case None => Success(page)
  }

  /** The cursor after a fetch, and the hit fetched or the exception thrown. */
  datatype Fetch = Fetch(cursor: Cursor, hit: Result<ScoreDoc>)

  /** `scoreDocs[localIndex++]`: the position moves on even when the read then throws. */
  function ReadAt(page: seq<ScoreDoc>, i: nat): Fetch {
    Fetch(Cursor(page, i + 1), if i < |page| then Success(page[i]) else Failure(ArrayIndexOutOfBounds))
  }

  /**
    `fetchNext`: the hit at the current position, which then moves on by one. At the end of the
    page the position is first reset to 0 and the page replaced by `FetchMoreResult`.
  */
  function FetchNext(env: Env, c: Cursor): Fetch
  {
    if c.localIndex == |c.page| then
      match FetchMoreResult(env, c.page)
      case Failure(e) => Fetch(Cursor(c.page, 0), Failure(e))
      case Success(p) => ReadAt(p, 0)
    else ReadAt(c.page, c.localIndex)
  }

  /**
    What one fetch does, case by case: inside the page it reads the hit at the position and moves
    on by one; at the end of a non-empty page it searches after the page's last hit (the sorted
    search exactly when the query has a sort) and reads the first hit of the new page, or, if that
    search throws, of the old page again; at the end of an empty page, or past the end of any page,
    it throws ArrayIndexOutOfBoundsException.
  */
  lemma FetchNextCases(env: Env, c: Cursor)
    ensures var f := FetchNext(env, c);
            (c.localIndex < |c.page| ==>
               f == Fetch(Cursor(c.page, c.localIndex + 1), Success(c.page[c.localIndex])))
            && (c.localIndex > |c.page| ==>
                  f == Fetch(Cursor(c.page, c.localIndex + 1), Failure(ArrayIndexOutOfBounds)))
            && (c.localIndex == |c.page| == 0 ==> f == Fetch(Cursor([], 0), Failure(ArrayIndexOutOfBounds)))
            && (f.hit.Success? ==> 0 < f.cursor.localIndex <= |f.cursor.page|
                                   && f.hit.value == f.cursor.page[f.cursor.localIndex - 1])
            && (f.hit.Failure? ==> f.hit.fault == ArrayIndexOutOfBounds)
    ensures c.localIndex == |c.page| > 0 && env.sort.None? ==>
              var f := FetchNext(env, c);
              match env.searcher.searchAfter(c.page[|c.page| - 1], PAGE_SIZE)
              case Some(td) => f == ReadAt(td.scoreDocs, 0)
              case None => f == Fetch(Cursor(c.page, 1), Success(c.page[0]))
    ensures c.localIndex == |c.page| > 0 && env.sort.Some? ==>
              var f := FetchNext(env, c);
              match env.searcher.searchAfterSorted(c.page[|c.page| - 1], PAGE_SIZE, env.sort.value)
              case Some(td) => f == ReadAt(td.scoreDocs, 0)
              case None => f == Fetch(Cursor(c.page, 1), Success(c.page[0]))
  {
  }

  /** `isTempMatch`: the document carries the transaction's TMP marker field. */
  predicate IsTempMatch(env: Env, doc: Document) {
    doc.Get(env.tmpField).Some?
  }

  predicate IsDeleted(env: Env, id: ContextualRecordId, doc: Document) {
    env.isDeleted(doc, id)
  }

  /** `isUpdatedDiskMatch`: the record was updated and this hit is not the transaction's own entry. */
  predicate IsUpdatedDiskMatch(env: Env, id: ContextualRecordId, doc: Document) {
    env.isUpdated(id) && !IsTempMatch(env, doc)
  }

  /** `isToSkip`: the hit is stale and must not be returned. */
  function IsToSkip(env: Env, id: ContextualRecordId, doc: Document): (skip: bool)
    ensures skip <==> env.isDeleted(doc, id) || (env.isUpdated(id) && env.tmpField !in doc.fields)
    ensures env.isUpdated(id) && env.tmpField in doc.fields ==> (skip <==> env.isDeleted(doc, id))
  {
    IsDeleted(env, id, doc) || IsUpdatedDiskMatch(env, id, doc)
  }

  /** The record id `toRecordId` builds from the document. */
  function RecordIdOf(env: Env, doc: Document): ContextualRecordId {
    ContextualRecordId(doc.Get(env.ridField))
  }

  /** The fragments of one highlighted field, as handed to the query context. */
  datatype FieldFragments = FieldFragments(field: string, fragments: seq<TextFragment>)

  /** The fragments added before the highlighting loop ended, and whether it ended by a failure. */
  datatype Highlighting = Highlighting(added: seq<FieldFragments>, failed: bool)

  function FragmentsOf(env: Env, hit: ScoreDoc, doc: Document, field: string): Option<seq<TextFragment>> {
    env.searcher.bestTextFragments(env.highlighter, hit.doc, doc, field, env.maxNumFragments)
  }

  /**
    The highlighting loop of `toRecordId` over `fields`: one fragment set per field, in list order,
    up to the first field whose highlighting fails.
  */
  function Highlights(env: Env, hit: ScoreDoc, doc: Document, fields: seq<string>): Highlighting
    decreases |fields|
  {
    if fields == [] then Highlighting([], false)
    else match FragmentsOf(env, hit, doc, fields[0])
      case None => Highlighting([], true)
      case Some(f) =>
        var rest := Highlights(env, hit, doc, fields[1..]);
        Highlighting([FieldFragments(fields[0], f)] + rest.added, rest.failed)
  }

  /**
    The highlighting loop adds, in list order, the fragments of every field before the first one
    whose highlighting fails, and of every field when none fails.
  */
  lemma {:induction false} HighlightsSpec(env: Env, hit: ScoreDoc, doc: Document, fields: seq<string>)
    ensures var h := Highlights(env, hit, doc, fields);
            |h.added| <= |fields|
            && (h.failed <==> |h.added| < |fields|)
            && (forall i :: 0 <= i < |h.added| ==>
                  FragmentsOf(env, hit, doc, fields[i]).Some?
                  && h.added[i] == FieldFragments(fields[i], FragmentsOf(env, hit, doc, fields[i]).value))
            && (h.failed ==> FragmentsOf(env, hit, doc, fields[|h.added|]).None?)
    decreases |fields|
  {
    if fields != [] && FragmentsOf(env, hit, doc, fields[0]).Some? {
      HighlightsSpec(env, hit, doc, fields[1..]);
      var h := Highlights(env, hit, doc, fields);
      var rest := Highlights(env, hit, doc, fields[1..]);
      forall i | 0 <= i < |h.added|
        ensures FragmentsOf(env, hit, doc, fields[i]).Some?
                && h.added[i] == FieldFragments(fields[i], FragmentsOf(env, hit, doc, fields[i]).value)
      {
        if i > 0 {
          assert h.added[i] == rest.added[i - 1] && fields[i] == fields[1..][i - 1];
        }
      }
      if h.failed {
        assert fields[|h.added|] == fields[1..][|rest.added|];
      }
    }
  }

  /** A record announced to the engine through `onRecordAddedToResultSet`. */
  datatype Added = Added(id: ContextualRecordId, doc: Document, hit: ScoreDoc)

  /** What `toRecordId` does: fragments added to the query context, records announced, and its outcome. */
  datatype Conversion = Conversion(fragments: seq<FieldFragments>, added: seq<Added>, result: Result<Added>)

  /**
    `toRecordId`: highlight every configured field, then announce the record to the engine.
    A highlighting failure is thrown wrapped, after the fragments of the fields before it.
  */
  function Convert(env: Env, doc: Document, hit: ScoreDoc): Conversion
  {
    var h := Highlights(env, hit, doc, env.highlighted);
    if h.failed then Conversion(h.added, [], Failure(LuceneIndexError))
    else Conversion(h.added, [Added(RecordIdOf(env, doc), doc, hit)], Success(Added(RecordIdOf(env, doc), doc, hit)))
  }

  /**
    `toRecordId` announces the record, and returns its id, exactly when highlighting succeeds, after
    one fragment set per highlighted field; otherwise it throws the wrapped exception after fewer,
    and announces nothing. With no highlighted fields it adds nothing and never throws.
  */
  lemma ConvertSpec(env: Env, doc: Document, hit: ScoreDoc)
    ensures var cv := Convert(env, doc, hit);
            (cv.result.Success? <==> !Highlights(env, hit, doc, env.highlighted).failed)
            && (cv.result.Success? ==> cv.result.value == Added(RecordIdOf(env, doc), doc, hit)
                                       && cv.added == [cv.result.value]
                                       && |cv.fragments| == |env.highlighted|)
            && (cv.result.Failure? ==> cv.result.fault == LuceneIndexError && cv.added == []
                                       && |cv.fragments| < |env.highlighted|)
            && (env.highlighted == [] ==> cv.fragments == [] && cv.result.Success?)
  {
    HighlightsSpec(env, hit, doc, env.highlighted);
  }

  /** How a call of `next()` ends: a record, an exception, or the pull budget used up on skipped hits. */
  datatype Outcome = Yield(id: ContextualRecordId) | Raise(fault: Fault) | OutOfFuel {
    /** What `next()` returns or throws. */
    function Answer(): Result<ContextualRecordId>
      requires !OutOfFuel?
    {
      if Yield? then Success(id) else Failure(fault)
    }
  }

  /**
    One call of `next()`: the cursor it leaves, the hits it fetched, the fragments it added to the
    query context, the records it announced to the engine, and how it ended.
  */
  datatype NextRun = NextRun(cursor: Cursor, pulled: seq<ScoreDoc>, fragments: seq<FieldFragments>,
                             added: seq<Added>, outcome: Outcome)

  /** The hits of `k` consecutive fetches, and whether one of them threw. */
  datatype Fetched = Fetched(cursor: Cursor, hits: seq<ScoreDoc>, failed: bool)

  /** `k` consecutive calls of `fetch`, stopping at the first that throws. */
  function Fetches(fetch: Cursor -> Fetch, c: Cursor, k: nat): (fe: Fetched)
    ensures |fe.hits| <= k
    ensures !fe.failed ==> |fe.hits| == k
    decreases k
  {
    if k == 0 then Fetched(c, [], false)
    else
      var f := fetch(c);
      match f.hit
      case Failure(_) => Fetched(f.cursor, [], true)
      case Success(hit) =>
        var rest := Fetches(fetch, f.cursor, k - 1);
        Fetched(rest.cursor, [hit] + rest.hits, rest.failed)
  }

  /** `fetchNext` of the iterator over `env`, as a function of the cursor. */
  function FetchNextIn(env: Env): Cursor -> Fetch {
    c => FetchNext(env, c)
  }

  /** `k` consecutive calls of `fetchNext`. */
  function FetchN(env: Env, c: Cursor, k: nat): Fetched {
    Fetches(FetchNextIn(env), c, k)
  }

  /** `k` fetches are the first fetch followed, if it did not throw, by `k - 1` more. */
  lemma FetchNStep(env: Env, c: Cursor, k: nat)
    requires k > 0
    ensures var f := FetchNext(env, c);
            var rest := FetchN(env, f.cursor, k - 1);
            FetchN(env, c, k) == if f.hit.Failure? then Fetched(f.cursor, [], true)
                                 else Fetched(rest.cursor, [f.hit.value] + rest.hits, rest.failed)
  {
    assert FetchNextIn(env)(c) == FetchNext(env, c);
  }

  /** One round of the loop of `next()`: it stops with the run so far, or goes round again. */
  datatype Turn =
    | Stop(run: NextRun)
    | Again(cursor: Cursor, hit: ScoreDoc, fragments: seq<FieldFragments>, record: Added)

  /**
    One round of the do-while loop of `next()`: fetch a hit, load its document (a failed load
    leaves null, which the next read dereferences), convert it, and go round again if the hit is
    to be skipped.
  */
  function Round(env: Env, c: Cursor): Turn {
    var f := FetchNext(env, c);
    match f.hit
    case Failure(e) => Stop(NextRun(f.cursor, [], [], [], Raise(e)))
    case Success(hit) =>
      match env.searcher.doc(hit.doc)
      case None => Stop(NextRun(f.cursor, [hit], [], [], Raise(NullPointer)))
      case Some(doc) =>
        var cv := Convert(env, doc, hit);
        match cv.result
        case Failure(e) => Stop(NextRun(f.cursor, [hit], cv.fragments, [], Raise(e)))
        case Success(a) =>
          if IsToSkip(env, a.id, a.doc) then Again(f.cursor, hit, cv.fragments, a)
          else Stop(NextRun(f.cursor, [hit], cv.fragments, [a], Yield(a.id)))
  }

  /** The loop of `next()`, allowed at most `fuel` rounds. */
  function RunNext(env: Env, c: Cursor, fuel: nat): (r: NextRun)
    ensures |r.pulled| <= fuel
    ensures r.outcome.OutOfFuel? ==> |r.pulled| == fuel
    decreases fuel
  {
    if fuel == 0 then NextRun(c, [], [], [], OutOfFuel)
    else match Round(env, c)
      case Stop(run) => run
      case Again(next, hit, fragments, a) =>
        var rest := RunNext(env, next, fuel - 1);
        NextRun(rest.cursor, [hit] + rest.pulled, fragments + rest.fragments, [a] + rest.added, rest.outcome)
  }

  /** A loop that ends within `fuel` rounds is its first round followed, if that goes round again, by the rest. */
  lemma RunNextStep(env: Env, c: Cursor, fuel: nat)
    requires !RunNext(env, c, fuel).outcome.OutOfFuel?
    ensures fuel > 0
    ensures Round(env, c).Stop? ==> RunNext(env, c, fuel) == Round(env, c).run
    ensures Round(env, c).Again? ==>
              var rd := Round(env, c);
              var rest := RunNext(env, rd.cursor, fuel - 1);
              RunNext(env, c, fuel)
                == NextRun(rest.cursor, [rd.hit] + rest.pulled, rd.fragments + rest.fragments, [rd.record] + rest.added, rest.outcome)
  {
  }

  /**
    Going round again leaves the rest of the loop to do what remains of the whole: effects
    accumulated before the round, followed by the whole loop's, are those accumulated after it,
    followed by the rest's.
  */
  lemma RunNextAgain(env: Env, c: Cursor, fuel: nat, fragments: seq<FieldFragments>, added: seq<Added>)
    requires !RunNext(env, c, fuel).outcome.OutOfFuel? && Round(env, c).Again?
    ensures var rd := Round(env, c);
            var whole := RunNext(env, c, fuel);
            var rest := RunNext(env, rd.cursor, fuel - 1);
            fuel > 0 && rest.outcome == whole.outcome && rest.cursor == whole.cursor
            && fragments + whole.fragments == (fragments + rd.fragments) + rest.fragments
            && added + whole.added == (added + [rd.record]) + rest.added
  {
    RunNextStep(env, c, fuel);
  }

  /** What one round of the loop of `next()` leaves, in terms of the fetch it starts with. */
  lemma RoundFacts(env: Env, c: Cursor)
    ensures var rd := Round(env, c);
            var f := FetchNext(env, c);
            (rd.Again? ==>
               f == Fetch(rd.cursor, Success(rd.hit))
               && env.searcher.doc(rd.hit.doc) == Some(rd.record.doc)
               && rd.record == Added(RecordIdOf(env, rd.record.doc), rd.record.doc, rd.hit)
               && IsToSkip(env, rd.record.id, rd.record.doc)
               && |rd.fragments| == |env.highlighted|)
            && (rd.Stop? ==> rd.run.cursor == f.cursor && !rd.run.outcome.OutOfFuel?)
            && (rd.Stop? && f.hit.Failure? ==>
                  rd.run == NextRun(f.cursor, [], [], [], Raise(ArrayIndexOutOfBounds)))
            && (rd.Stop? && f.hit.Success? ==>
                  rd.run.pulled == [f.hit.value] && rd.run.outcome != Raise(ArrayIndexOutOfBounds))
            && (rd.Stop? && rd.run.outcome.Yield? ==>
                  |rd.run.added| == 1
                  && env.searcher.doc(f.hit.value.doc) == Some(rd.run.added[0].doc)
                  && rd.run.added[0] == Added(RecordIdOf(env, rd.run.added[0].doc), rd.run.added[0].doc, f.hit.value)
                  && !IsToSkip(env, rd.run.added[0].id, rd.run.added[0].doc)
                  && rd.run.outcome.id == rd.run.added[0].id
                  && |rd.run.fragments| == |env.highlighted|)
            && (rd.Stop? && f.hit.Success? && rd.run.outcome.Raise? ==>
                  rd.run.added == []
                  && rd.run.outcome in {Raise(NullPointer), Raise(LuceneIndexError)}
                  && (rd.run.outcome == Raise(NullPointer) ==> rd.run.fragments == [])
                  && (env.highlighted == [] ==> rd.run.outcome == Raise(NullPointer)))
  {
    FetchNextCases(env, c);
    var f := FetchNext(env, c);
    if f.hit.Success? && env.searcher.doc(f.hit.value.doc).Some? {
      ConvertSpec(env, env.searcher.doc(f.hit.value.doc).value, f.hit.value);
    }
  }

  /**
    `next()` returns the first hit that is not skipped: every record announced before it was
    skipped, and the returned record is the last one announced.
  */
  lemma {:induction false} RunNextYieldsFirstKept(env: Env, c: Cursor, fuel: nat)
    requires RunNext(env, c, fuel).outcome.Yield?
    ensures var r := RunNext(env, c, fuel);
            |r.added| == |r.pulled| > 0
            && r.outcome.id == r.added[|r.added| - 1].id
            && !IsToSkip(env, r.added[|r.added| - 1].id, r.added[|r.added| - 1].doc)
            && forall i :: 0 <= i < |r.added| - 1 ==> IsToSkip(env, r.added[i].id, r.added[i].doc)
    decreases fuel
  {
    RoundFacts(env, c);
    var rd := Round(env, c);
    if rd.Again? {
      RunNextYieldsFirstKept(env, rd.cursor, fuel - 1);
      var rest := RunNext(env, rd.cursor, fuel - 1);
      var r := RunNext(env, c, fuel);
      assert r.added == [rd.record] + rest.added;
      forall i | 0 <= i < |r.added| - 1
        ensures IsToSkip(env, r.added[i].id, r.added[i].doc)
      {
        if i > 0 { assert r.added[i] == rest.added[i - 1]; }
      }
    }
  }

  /**
    Every fetched hit whose document loads and highlights is announced to the engine, whether it
    is then skipped or returned; only a hit whose conversion throws is fetched without being
    announced, and it is the last one fetched.
  */
  lemma {:induction false} RunNextAnnouncesEveryConvertedHit(env: Env, c: Cursor, fuel: nat)
    ensures var r := RunNext(env, c, fuel);
            |r.added| <= |r.pulled| <= |r.added| + 1
            && (|r.pulled| == |r.added| + 1 <==> r.outcome in {Raise(NullPointer), Raise(LuceneIndexError)})
            && forall i :: 0 <= i < |r.added| ==>
                 r.added[i].hit == r.pulled[i]
                 && env.searcher.doc(r.pulled[i].doc) == Some(r.added[i].doc)
                 && r.added[i].id == RecordIdOf(env, r.added[i].doc)
    decreases fuel
  {
    if fuel > 0 {
      RoundFacts(env, c);
      var rd := Round(env, c);
      if rd.Again? {
        RunNextAnnouncesEveryConvertedHit(env, rd.cursor, fuel - 1);
        var rest := RunNext(env, rd.cursor, fuel - 1);
        var r := RunNext(env, c, fuel);
        assert r.added == [rd.record] + rest.added;
        assert r.pulled == [rd.hit] + rest.pulled;
        forall i | 0 <= i < |r.added|
          ensures r.added[i].hit == r.pulled[i]
                  && env.searcher.doc(r.pulled[i].doc) == Some(r.added[i].doc)
                  && r.added[i].id == RecordIdOf(env, r.added[i].doc)
        {
          if i > 0 { assert r.added[i] == rest.added[i - 1] && r.pulled[i] == rest.pulled[i - 1]; }
        }
      }
    }
  }

  /**
    Every announced record gets one fragment set per highlighted field, unless highlighting fails;
    with no highlighted fields nothing is added to the query context and highlighting never fails.
  */
  lemma {:induction false} RunNextHighlightsEachAnnouncedHit(env: Env, c: Cursor, fuel: nat)
    ensures var r := RunNext(env, c, fuel);
            r.outcome != Raise(LuceneIndexError) ==> |r.fragments| == |r.added| * |env.highlighted|
    ensures env.highlighted == [] ==> RunNext(env, c, fuel).fragments == []
                                      && RunNext(env, c, fuel).outcome != Raise(LuceneIndexError)
    decreases fuel
  {
    if fuel > 0 {
      RoundFacts(env, c);
      var rd := Round(env, c);
      if rd.Again? {
        RunNextHighlightsEachAnnouncedHit(env, rd.cursor, fuel - 1);
        var rest := RunNext(env, rd.cursor, fuel - 1);
        var n := |env.highlighted|;
        assert (1 + |rest.added|) * n == n + |rest.added| * n;
      }
    }
  }

  /** The fragments `toRecordId` adds for each of the records `added`, one record after the other. */
  function AnnouncedFragments(env: Env, added: seq<Added>): seq<FieldFragments>
    decreases |added|
  {
    if added == [] then []
    else Highlights(env, added[0].hit, added[0].doc, env.highlighted).added + AnnouncedFragments(env, added[1..])
  }

  /**
    The fragments one round adds are those of highlighting its hit: in full for a record announced
    (skipped or returned), in part when highlighting throws, and none otherwise.
  */
  lemma RoundFragments(env: Env, c: Cursor)
    ensures var rd := Round(env, c);
            (rd.Again? ==> rd.record.hit == rd.hit
                           && rd.fragments == Highlights(env, rd.hit, rd.record.doc, env.highlighted).added)
            && (rd.Stop? && rd.run.outcome.Yield? ==>
                  |rd.run.added| == 1
                  && rd.run.fragments == Highlights(env, rd.run.added[0].hit, rd.run.added[0].doc, env.highlighted).added)
            && (rd.Stop? && rd.run.outcome == Raise(LuceneIndexError) ==>
                  rd.run.added == [] && |rd.run.pulled| == 1
                  && env.searcher.doc(rd.run.pulled[0].doc).Some?
                  && rd.run.fragments
                     == Highlights(env, rd.run.pulled[0], env.searcher.doc(rd.run.pulled[0].doc).value, env.highlighted).added)
            && (rd.Stop? && !rd.run.outcome.Yield? && rd.run.outcome != Raise(LuceneIndexError) ==>
                  rd.run.fragments == [] && rd.run.added == [])
  {
    FetchNextCases(env, c);
  }

  /**
    The fragments a run added are, in order, those of every record it announced, followed, when
    highlighting threw, by those highlighted before the failure for the last hit pulled.
  */
  predicate FragmentsInOrder(env: Env, r: NextRun) {
    if r.outcome == Raise(LuceneIndexError) then
      0 < |r.pulled|
      && env.searcher.doc(r.pulled[|r.pulled| - 1].doc).Some?
      && r.fragments == AnnouncedFragments(env, r.added)
                        + Highlights(env, r.pulled[|r.pulled| - 1],
                                     env.searcher.doc(r.pulled[|r.pulled| - 1].doc).value, env.highlighted).added
    else r.fragments == AnnouncedFragments(env, r.added)
  }

  /** A round that announces a record, with that record's fragments, in front of a run in order. */
  lemma FragmentsInOrderCons(env: Env, rest: NextRun, hit: ScoreDoc, fragments: seq<FieldFragments>, a: Added)
    requires FragmentsInOrder(env, rest)
    requires fragments == Highlights(env, a.hit, a.doc, env.highlighted).added
    ensures FragmentsInOrder(env, NextRun(rest.cursor, [hit] + rest.pulled, fragments + rest.fragments,
                                          [a] + rest.added, rest.outcome))
  {
    assert ([a] + rest.added)[1..] == rest.added;
    if rest.outcome == Raise(LuceneIndexError) {
      var pulled := [hit] + rest.pulled;
      assert pulled[|pulled| - 1] == rest.pulled[|rest.pulled| - 1];
    }
  }

  /**
    What one call of `next()` adds to the query context is, in order, the fragments of every
    announced record, each highlighting the highlighted fields in list order; when highlighting
    throws, they are followed by the fragments of the fields highlighted before the failure, for
    the last hit pulled.
  */
  lemma {:induction false} RunNextHighlightsInOrder(env: Env, c: Cursor, fuel: nat)
    ensures FragmentsInOrder(env, RunNext(env, c, fuel))
    decreases fuel
  {
    if fuel > 0 {
      RoundFragments(env, c);
      var rd := Round(env, c);
      if rd.Again? {
        RunNextHighlightsInOrder(env, rd.cursor, fuel - 1);
        FragmentsInOrderCons(env, RunNext(env, rd.cursor, fuel - 1), rd.hit, rd.fragments, rd.record);
      } else if rd.run.outcome.Yield? {
        assert rd.run.added[1..] == [];
      }
    }
  }

  /**
    The hits one call of `next()` pulls are those of as many consecutive `fetchNext` calls, which
    do not throw; the loop ends with the cursor those calls leave, unless the next fetch threw.
  */
  lemma {:induction false} RunNextFetchesInOrder(env: Env, c: Cursor, fuel: nat)
    ensures var r := RunNext(env, c, fuel);
            var fe := FetchN(env, c, |r.pulled|);
            fe.hits == r.pulled && !fe.failed
            && (r.outcome != Raise(ArrayIndexOutOfBounds) ==> fe.cursor == r.cursor)
            && (r.outcome == Raise(ArrayIndexOutOfBounds) ==> FetchN(env, c, |r.pulled| + 1).failed)
    decreases fuel
  {
    if fuel > 0 {
      RoundFacts(env, c);
      var rd := Round(env, c);
      if rd.Again? {
        RunNextFetchesInOrder(env, rd.cursor, fuel - 1);
        var rest := RunNext(env, rd.cursor, fuel - 1);
        assert RunNext(env, c, fuel) == NextRun(rest.cursor, [rd.hit] + rest.pulled, rd.fragments + rest.fragments,
                                                [rd.record] + rest.added, rest.outcome);
        var n := |rest.pulled|;
        FetchNStep(env, c, n + 1);
        FetchNStep(env, c, n + 2);
      } else {
        FetchNStep(env, c, 1);
      }
    }
  }
}
