/**
  Two behaviours of the iterator as written, each shown on a concrete result set: a record updated
  in the transaction is counted by `size()` and `hasNext()` but skipped by `next()`, so `next()`
  can run past the last hit; and when every search after the current page throws, the page is read
  again from its start, so `next()` never returns if every hit on the page is skipped.
*/
module Quirks {
  import opened Results
  import opened Lucene
  import opened Iteration
  import ResultSet

  /** The only hit of the query. */
  const Hit := ScoreDoc(7, 1.0)

  /** Its stored document: no TMP field, so it is the on-disk entry of its record. */
  const Stored := Document(map["RID" := "#12:0"])

  /**
    A query with the one hit above, whose record the transaction has updated (and not deleted),
    no highlighted fields, and a searcher whose search after a hit answers `after`.
  */
  function UpdatedRecordEnv(after: Option<TopDocs>): Env {
    Env(Searcher(n => Some(TopDocs(1, [Hit])), (n, s) => Some(TopDocs(1, [Hit])),
                 (a, n) => after, (a, n, s) => after,
                 d => Some(Stored), (h, d, doc, f, n) => None),
        None, (doc, id) => false, id => true, "RID", "TMP", [], Highlighter("<B>", "</B>"), 2)
  }

  /**
    The size counts the updated record, so `hasNext()` of a fresh iterator is true, yet its only
    hit is skipped and the following read past the end of the (empty) next page throws
    ArrayIndexOutOfBoundsException, after the skipped record was announced to the engine.
  */
  lemma SizeCountsSkippedUpdate()
    ensures ResultSet.SizeOf(1, 0) == 1
    ensures var run := RunNext(UpdatedRecordEnv(Some(TopDocs(1, []))), Cursor([Hit], 0), 2);
            run.outcome == Raise(ArrayIndexOutOfBounds)
            && run.pulled == [Hit]
            && run.added == [Added(ContextualRecordId(Some("#12:0")), Stored, Hit)]
  {
    var env := UpdatedRecordEnv(Some(TopDocs(1, [])));
    var c := Cursor([Hit], 0);
    assert Stored.Get("RID") == Some("#12:0");
    assert IsToSkip(env, ContextualRecordId(Some("#12:0")), Stored);
    assert Round(env, c) == Again(Cursor([Hit], 1), Hit, [], Added(ContextualRecordId(Some("#12:0")), Stored, Hit));
    assert Round(env, Cursor([Hit], 1)) == Stop(NextRun(Cursor([], 1), [], [], [], Raise(ArrayIndexOutOfBounds)));
  }

  /**
    When the search after the page keeps throwing, the iterator reads its only page again and
    again: a page whose every hit is skipped makes `next()` go round forever, whatever bound is
    put on its rounds.
  */
  lemma {:induction false} NextCanLoopForever(fuel: nat)
    ensures RunNext(UpdatedRecordEnv(None), Cursor([Hit], 0), fuel).outcome == OutOfFuel
  {
    var env := UpdatedRecordEnv(None);
    assert Stored.Get("RID") == Some("#12:0");
    assert IsToSkip(env, ContextualRecordId(Some("#12:0")), Stored);
    assert Round(env, Cursor([Hit], 0)).Again? && Round(env, Cursor([Hit], 0)).cursor == Cursor([Hit], 1);
    assert Round(env, Cursor([Hit], 1)).Again? && Round(env, Cursor([Hit], 1)).cursor == Cursor([Hit], 1);
    if fuel > 0 {
      EndOfPageLoops(fuel - 1);
    }
  }

  /** From the end of the page, every round reads the same hit again and lands back at the end. */
  lemma {:induction false} EndOfPageLoops(fuel: nat)
    ensures RunNext(UpdatedRecordEnv(None), Cursor([Hit], 1), fuel).outcome == OutOfFuel
    decreases fuel
  {
    var env := UpdatedRecordEnv(None);
    assert Stored.Get("RID") == Some("#12:0");
    assert IsToSkip(env, ContextualRecordId(Some("#12:0")), Stored);
    assert Round(env, Cursor([Hit], 1)).Again? && Round(env, Cursor([Hit], 1)).cursor == Cursor([Hit], 1);
    if fuel > 0 {
      EndOfPageLoops(fuel - 1);
    }
  }
}
