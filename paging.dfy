/**
  Paging over a well-behaved searcher. When the searcher answers every "search after the hit at
  position i" with the next PAGE_SIZE hits of one fixed ranking, the iterator visits that ranking
  in order: no hit is dropped or repeated at a page boundary, reading past the last hit throws,
  and `next()` returns the first hit of the ranking, from the current position on, that is kept.
*/
module Paging {
  import opened Results
  import opened Lucene
  import opened Iteration

  /** The page of the ranking that starts at position `from`. */
  function Window(ranking: seq<ScoreDoc>, from: nat): (w: seq<ScoreDoc>)
    requires from <= |ranking|
    ensures |w| <= PAGE_SIZE
    ensures from < |ranking| <==> w != []
    ensures |w| < PAGE_SIZE ==> from + |w| == |ranking|
  {
    ranking[from .. if from + PAGE_SIZE <= |ranking| then from + PAGE_SIZE else |ranking|]
  }

  /** Searching after the hit at position i gives the page of the ranking that starts at i + 1. */
  ghost predicate PageAfter(env: Env, ranking: seq<ScoreDoc>, i: nat)
    requires i < |ranking|
  {
    SearchAfter(env, ranking[i]).Some? && SearchAfter(env, ranking[i]).value.scoreDocs == Window(ranking, i + 1)
  }

  /** The searcher pages through one fixed ranking. */
  ghost predicate Paginates(env: Env, ranking: seq<ScoreDoc>) {
    forall i: nat :: i < |ranking| ==> PageAfter(env, ranking, i)
  }

  /** The cursor stands before the hit at position `pos` of the ranking. */
  ghost predicate CursorAt(ranking: seq<ScoreDoc>, c: Cursor, pos: nat) {
    pos <= |ranking| && c.localIndex <= pos
    && c.page == Window(ranking, pos - c.localIndex)
    && c.localIndex <= |c.page|
  }

  /** The first page of the ranking puts a fresh cursor before its first hit. */
  lemma FirstPageStartsRanking(ranking: seq<ScoreDoc>)
    ensures CursorAt(ranking, Cursor(Window(ranking, 0), 0), 0)
  {
  }

  /** One fetch reads the hit at the cursor's position and moves past it, across page boundaries. */
  lemma FetchNextFollowsRanking(env: Env, ranking: seq<ScoreDoc>, c: Cursor, pos: nat)
    requires Paginates(env, ranking) && CursorAt(ranking, c, pos)
    ensures pos < |ranking| ==> FetchNext(env, c).hit == Success(ranking[pos])
                                && CursorAt(ranking, FetchNext(env, c).cursor, pos + 1)
    ensures pos == |ranking| ==> FetchNext(env, c).hit == Failure(ArrayIndexOutOfBounds)
  {
    FetchNextCases(env, c);
    if c.localIndex < |c.page| {
      assert c.page[c.localIndex] == ranking[pos];
    } else if c.page != [] {
      assert c.page[|c.page| - 1] == ranking[pos - 1];
      assert PageAfter(env, ranking, pos - 1);
      var w := Window(ranking, pos);
      assert FetchMoreResult(env, c.page) == Success(w);
      assert FetchNext(env, c) == ReadAt(w, 0);
      if pos < |ranking| {
        assert w[0] == ranking[pos];
      }
    }
  }

  /**
    A fetch that, from a cursor standing before position p of the ranking, reads the hit at p and
    leaves the cursor before p + 1, reads in `k` calls the next `k` hits of the ranking.
  */
  lemma {:induction false} FetchesFollowRanking(fetch: Cursor -> Fetch, at: (Cursor, nat) -> bool,
                                                ranking: seq<ScoreDoc>, c: Cursor, pos: nat, k: nat)
    requires forall d, p: nat :: at(d, p) && p < |ranking| ==>
               fetch(d).hit == Success(ranking[p]) && at(fetch(d).cursor, p + 1)
    requires at(c, pos) && pos + k <= |ranking|
    ensures var fe := Fetches(fetch, c, k);
            !fe.failed && fe.hits == ranking[pos .. pos + k] && at(fe.cursor, pos + k)
    decreases k
  {
    if k > 0 {
      FetchesFollowRanking(fetch, at, ranking, fetch(c).cursor, pos + 1, k - 1);
      assert [ranking[pos]] + ranking[pos + 1 .. pos + k] == ranking[pos .. pos + k];
    }
  }

  /** Such a fetch, if it throws at the end of the ranking, throws when asked for more hits than are left. */
  lemma {:induction false} FetchesFailPastEnd(fetch: Cursor -> Fetch, at: (Cursor, nat) -> bool,
                                              ranking: seq<ScoreDoc>, c: Cursor, pos: nat, k: nat)
    requires forall d, p: nat :: at(d, p) && p < |ranking| ==>
               fetch(d).hit == Success(ranking[p]) && at(fetch(d).cursor, p + 1)
    requires forall d :: at(d, |ranking|) ==> fetch(d).hit.Failure?
    requires at(c, pos) && pos <= |ranking| < pos + k
    ensures Fetches(fetch, c, k).failed
    decreases k
  {
    if pos < |ranking| {
      FetchesFailPastEnd(fetch, at, ranking, fetch(c).cursor, pos + 1, k - 1);
    }
  }

  /** From any position of a paginated ranking, `fetchNext` reads that hit and moves on by one. */
  lemma FetchNextStepsAlong(env: Env, ranking: seq<ScoreDoc>)
    requires Paginates(env, ranking)
    ensures forall d, p: nat :: CursorAt(ranking, d, p) && p < |ranking| ==>
              FetchNextIn(env)(d).hit == Success(ranking[p]) && CursorAt(ranking, FetchNextIn(env)(d).cursor, p + 1)
    ensures forall d :: CursorAt(ranking, d, |ranking|) ==> FetchNextIn(env)(d).hit.Failure?
  {
    forall d, p: nat | CursorAt(ranking, d, p) && p < |ranking|
      ensures FetchNextIn(env)(d).hit == Success(ranking[p]) && CursorAt(ranking, FetchNextIn(env)(d).cursor, p + 1)
    {
      FetchNextFollowsRanking(env, ranking, d, p);
    }
    forall d | CursorAt(ranking, d, |ranking|)
      ensures FetchNextIn(env)(d).hit.Failure?
    {
      FetchNextFollowsRanking(env, ranking, d, |ranking|);
    }
  }

  /**
    Hits read by `n` fetches that did not throw are the next `n` hits of the ranking, and a further
    fetch throws only once the ranking is used up.
  */
  lemma FetchedHitsFollowRanking(env: Env, ranking: seq<ScoreDoc>, c: Cursor, pos: nat, n: nat, exhausted: bool)
    requires Paginates(env, ranking) && CursorAt(ranking, c, pos)
    requires !FetchN(env, c, n).failed
    requires exhausted ==> FetchN(env, c, n + 1).failed
    ensures pos + n <= |ranking|
    ensures FetchN(env, c, n).hits == ranking[pos .. pos + n]
    ensures exhausted ==> pos + n == |ranking|
    ensures CursorAt(ranking, FetchN(env, c, n).cursor, pos + n)
  {
    var at := (d: Cursor, p: nat) => CursorAt(ranking, d, p);
    FetchNextStepsAlong(env, ranking);
    if pos + n > |ranking| {
      FetchesFailPastEnd(FetchNextIn(env), at, ranking, c, pos, n);
      assert false;
    }
    FetchesFollowRanking(FetchNextIn(env), at, ranking, c, pos, n);
    if exhausted && pos + n < |ranking| {
      FetchesFollowRanking(FetchNextIn(env), at, ranking, c, pos, n + 1);
    }
  }

  /**
    The hits one call of `next()` fetches are the next hits of the ranking, in order; it throws
    ArrayIndexOutOfBoundsException only once the ranking is used up, and otherwise leaves the
    cursor just after the last hit it fetched.
  */
  lemma RunNextFollowsRanking(env: Env, ranking: seq<ScoreDoc>, c: Cursor, pos: nat, fuel: nat)
    requires Paginates(env, ranking) && CursorAt(ranking, c, pos)
    ensures var r := RunNext(env, c, fuel);
            pos + |r.pulled| <= |ranking|
            && r.pulled == ranking[pos .. pos + |r.pulled|]
            && (r.outcome == Raise(ArrayIndexOutOfBounds) ==> pos + |r.pulled| == |ranking|)
            && (r.outcome != Raise(ArrayIndexOutOfBounds) ==> CursorAt(ranking, r.cursor, pos + |r.pulled|))
  {
    var r := RunNext(env, c, fuel);
    RunNextFetchesInOrder(env, c, fuel);
    FetchedHitsFollowRanking(env, ranking, c, pos, |r.pulled|, r.outcome == Raise(ArrayIndexOutOfBounds));
  }

  /** The hit's document loads and the hit is skipped. */
  ghost predicate Skipped(env: Env, hit: ScoreDoc) {
    env.searcher.doc(hit.doc).Some?
    && IsToSkip(env, RecordIdOf(env, env.searcher.doc(hit.doc).value), env.searcher.doc(hit.doc).value)
  }

  /**
    A call of `next()` that returns a record returns the one of the first hit, from the cursor's
    position on, that is not skipped, and leaves the cursor just after that hit.
  */
  lemma NextYieldsFirstKeptHit(env: Env, ranking: seq<ScoreDoc>, c: Cursor, pos: nat, fuel: nat)
    requires Paginates(env, ranking) && CursorAt(ranking, c, pos)
    requires RunNext(env, c, fuel).outcome.Yield?
    ensures var r := RunNext(env, c, fuel);
            var k := pos + |r.pulled| - 1;
            pos <= k < |ranking|
            && (forall j :: pos <= j < k ==> Skipped(env, ranking[j]))
            && env.searcher.doc(ranking[k].doc).Some?
            && !Skipped(env, ranking[k])
            && r.outcome.id == RecordIdOf(env, env.searcher.doc(ranking[k].doc).value)
            && CursorAt(ranking, r.cursor, k + 1)
  {
    RunNextFollowsRanking(env, ranking, c, pos, fuel);
    RunNextYieldsFirstKept(env, c, fuel);
    RunNextAnnouncesEveryConvertedHit(env, c, fuel);
    var r := RunNext(env, c, fuel);
    var k := pos + |r.pulled| - 1;
    forall j | pos <= j < k
      ensures Skipped(env, ranking[j])
    {
      assert ranking[j] == r.pulled[j - pos] == r.added[j - pos].hit;
    }
    assert ranking[k] == r.pulled[k - pos];
  }
}
