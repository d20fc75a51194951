/**
  The result set of a Lucene query and its iterator, as objects with the state the Java classes
  keep: the index engine and the query context it calls into, the first page of hits fetched when
  it is built, and the paging position of each iterator. Every method is proved to do what the
  functions of the Iteration module say.
*/
module ResultSet {
  import opened Results
  import opened Lucene
  import opened HighlightConfig
  import opened Iteration

  /**
    The Lucene index engine, as far as the result set uses it: the name of the stored field that
    holds a record id, the records announced by `onRecordAddedToResultSet`, and how many times
    the searcher was released.
  */
  class IndexEngine {
    const ridField: string
    var announced: seq<Added>
    var releases: nat

    constructor (ridField: string)
      ensures this.ridField == ridField && announced == [] && releases == 0
    {
      this.ridField := ridField;
      announced := [];
      releases := 0;
    }

    /** `onRecordAddedToResultSet`: the record is appended to those announced so far. */
    method OnRecordAddedToResultSet(id: ContextualRecordId, doc: Document, hit: ScoreDoc)
      modifies this`announced
      ensures announced == old(announced) + [Added(id, doc, hit)]
    {
      announced := announced + [Added(id, doc, hit)];
    }

    /** `release(searcher)`: one more release of the searcher. */
    method Release()
      modifies this`releases
      ensures releases == old(releases) + 1
    {
      releases := releases + 1;
    }
  }

  /**
    The query context: the searcher and the sort of the query, the number of index entries the
    transaction deleted among the matches, the transaction's deletion and update oracles, the name
    of the stored field that marks a transaction's own entry, and the highlight fragments collected
    so far.
  */
  class QueryContext {
    const searcher: Searcher
    const sort: Option<Sort>
    const deletedDocs: int
    const isDeleted: (Document, ContextualRecordId) -> bool
    const isUpdated: ContextualRecordId -> bool
    const tmpField: string
    var fragments: seq<FieldFragments>

    constructor (searcher: Searcher, sort: Option<Sort>, deletedDocs: int,
                 isDeleted: (Document, ContextualRecordId) -> bool, isUpdated: ContextualRecordId -> bool,
                 tmpField: string)
      ensures this.searcher == searcher && this.sort == sort && this.deletedDocs == deletedDocs
      ensures this.isDeleted == isDeleted && this.isUpdated == isUpdated && this.tmpField == tmpField
      ensures fragments == []
    {
      this.searcher := searcher;
      this.sort := sort;
      this.deletedDocs := deletedDocs;
      this.isDeleted := isDeleted;
      this.isUpdated := isUpdated;
      this.tmpField := tmpField;
      fragments := [];
    }

    /** `addHighlightFragment`: the fragments of one field are appended to those collected so far. */
    method AddHighlightFragment(field: string, frags: seq<TextFragment>)
      modifies this`fragments
      ensures fragments == old(fragments) + [FieldFragments(field, frags)]
    {
      fragments := fragments + [FieldFragments(field, frags)];
    }
  }

  /** `size()` of a result set whose first search reported `totalHits` matches, `deleted` of them deleted. */
  function SizeOf(totalHits: int, deleted: int): (n: int)
    ensures n >= 0 && n >= totalHits - deleted
    ensures n == 0 || n == totalHits - deleted
  {
    if totalHits - deleted > 0 then totalHits - deleted else 0
  }

  /**
    `hasNext()` compares the count of returned records with the same difference `size()` clamps:
    a fresh iterator has a next record exactly when the result set is not empty, and in general
    exactly while fewer records were returned than the size.
  */
  lemma HasNextWithinSize(index: int, totalHits: int, deleted: int)
    requires index >= 0
    ensures index < totalHits - deleted <==> index < SizeOf(totalHits, deleted)
    ensures 0 < totalHits - deleted <==> SizeOf(totalHits, deleted) != 0
  {
  }

  /** The mutating and element-wise methods of `java.util.Set` that the result set refuses. */
  datatype SetOperation =
    | Contains | ToArray | ToTypedArray | Add | RemoveElement
    | ContainsAll | AddAll | RetainAll | RemoveAll | Clear

  /** The result set of one Lucene query. */
  class LuceneResultSet {
    const engine: IndexEngine
    const context: QueryContext
    /** The first page of hits; None when the first search threw an IOException. */
    const topDocs: Option<TopDocs>
    const deletedMatchCount: int
    const highlighted: seq<string>
    const highlighter: Highlighter
    const maxNumFragments: int

    /** Runs the first search and counts the deleted matches, then takes the highlighting options. */
    constructor (engine: IndexEngine, context: QueryContext, config: Config)
      ensures this.engine == engine && this.context == context
      ensures topDocs == FirstBatch(context.searcher, context.sort)
      ensures deletedMatchCount == context.deletedDocs
      ensures highlighted == config.fields && maxNumFragments == config.maxNumFragments
      ensures highlighter == Highlighter(config.startElement, config.endElement)
    {
      this.engine := engine;
      this.context := context;
      topDocs := FirstBatch(context.searcher, context.sort);
      deletedMatchCount := context.deletedDocs;
      highlighted := config.fields;
      highlighter := Highlighter(config.startElement, config.endElement);
      maxNumFragments := config.maxNumFragments;
    }

    /**
      The Java constructor: it throws ClassCastException when a highlighting option has the wrong
      type, and otherwise builds the result set with the options the metadata gives or their defaults.
    */
    static method Create(engine: IndexEngine, context: QueryContext, metadata: map<string, Value>)
      returns (r: Result<LuceneResultSet>)
      ensures r.Failure? <==> Resolve(metadata).Failure?
      ensures r.Failure? ==> r.fault == Resolve(metadata).fault
      ensures r.Success? ==>
                fresh(r.value) && r.value.engine == engine && r.value.context == context
                && r.value.topDocs == FirstBatch(context.searcher, context.sort)
                && r.value.deletedMatchCount == context.deletedDocs
                && r.value.highlighted == Resolve(metadata).value.fields
                && r.value.highlighter == Highlighter(Resolve(metadata).value.startElement,
                                                      Resolve(metadata).value.endElement)
                && r.value.maxNumFragments == Resolve(metadata).value.maxNumFragments
    {
      var config := Resolve(metadata);
      if config.Failure? {
        return Failure(config.fault);
      }
      var rs := new LuceneResultSet(engine, context, config.value);
      return Success(rs);
    }

    /**
      `size()`: the reported number of matches less the deleted ones, never below zero; it throws
      NullPointerException when the first search failed.
    */
    function Size(): (r: Result<int>)
      ensures r.Failure? <==> topDocs.None?
      ensures r.Failure? ==> r.fault == NullPointer
      ensures r.Success? ==> r.value == SizeOf(topDocs.value.totalHits, deletedMatchCount)
    {
      match topDocs
      case None => Failure(NullPointer)
      case Some(td) => Success(SizeOf(td.totalHits, deletedMatchCount))
    }

    /** `isEmpty()`: no more matches than deleted ones; it throws as `size()` does. */
    function IsEmpty(): (r: Result<bool>)
      ensures r.Failure? <==> topDocs.None?
      ensures r.Failure? ==> r.fault == NullPointer
      ensures r.Success? ==> (r.value <==> topDocs.value.totalHits <= deletedMatchCount)
    {
      var n :- Size();
      Success(n == 0)
    }

    /** Every `java.util.Set` operation other than size, isEmpty and iterator throws. */
    function Refuse(op: SetOperation): (r: Result<bool>)
      ensures r.Failure? && r.fault == UnsupportedOperation
    {
      Failure(UnsupportedOperation)
    }

    /** `iterator()`: a fresh iterator at the start of the first page; NullPointerException without one. */
    method Iterator() returns (r: Result<LuceneResultSetIterator>)
      ensures r.Failure? <==> topDocs.None?
      ensures r.Failure? ==> r.fault == NullPointer
      ensures r.Success? ==>
                fresh(r.value) && r.value.owner == this
                && r.value.scoreDocs == topDocs.value.scoreDocs && r.value.localIndex == 0
                && r.value.index == 0 && r.value.totalHits == topDocs.value.totalHits
    {
      if topDocs.None? {
        return Failure(NullPointer);
      }
      var it := new LuceneResultSetIterator(this);
      return Success(it);
    }
  }

  /** The iterator of a result set: the current page, the position in it, and the count of records returned. */
  class LuceneResultSetIterator {
    const owner: LuceneResultSet
    const totalHits: int
    var scoreDocs: seq<ScoreDoc>
    var index: nat
    var localIndex: nat

    constructor (owner: LuceneResultSet)
      requires owner.topDocs.Some?
      ensures this.owner == owner && totalHits == owner.topDocs.value.totalHits
      ensures scoreDocs == owner.topDocs.value.scoreDocs && index == 0 && localIndex == 0
    {
      this.owner := owner;
      totalHits := owner.topDocs.value.totalHits;
      scoreDocs := owner.topDocs.value.scoreDocs;
      index := 0;
      localIndex := 0;
    }

    /** What the iteration reads but never changes, gathered from the result set and its collaborators. */
    function Environment(): Env {
      Env(owner.context.searcher, owner.context.sort, owner.context.isDeleted, owner.context.isUpdated,
          owner.engine.ridField, owner.context.tmpField, owner.highlighted, owner.highlighter,
          owner.maxNumFragments)
    }

    /** The paging state. */
    function Position(): Cursor
      reads this
    {
      Cursor(scoreDocs, localIndex)
    }

    /**
      `hasNext()`: fewer records returned than the size counts; once that is no longer so, the
      searcher is released when its reader is still referenced elsewhere (`refCount` above 1).
    */
    method HasNext(refCount: int) returns (b: bool)
      modifies owner.engine`releases
      ensures b <==> index < totalHits - owner.deletedMatchCount
      ensures owner.engine.releases == old(owner.engine.releases) + (if !b && refCount > 1 then 1 else 0)
    {
      b := index < totalHits - owner.deletedMatchCount;
      if !b && refCount > 1 {
        owner.engine.Release();
      }
    }

    /** `fetchMoreResult`: the page is replaced as `Iteration.FetchMoreResult` says, or it throws. */
    method FetchMoreResult() returns (r: Result<()>)
      modifies this`scoreDocs
      ensures var m := Iteration.FetchMoreResult(Environment(), old(scoreDocs));
              (m.Failure? ==> r == Failure(m.fault) && scoreDocs == old(scoreDocs))
              && (m.Success? ==> r == Success(()) && scoreDocs == m.value)
    {
      if |scoreDocs| == 0 {
        return Failure(ArrayIndexOutOfBounds);
      }
      var td := SearchAfter(Environment(), scoreDocs[|scoreDocs| - 1]);
      if td.Some? {
        scoreDocs := td.value.scoreDocs;
      }
      return Success(());
    }

    /** `fetchNext`: the hit and the new paging state are those `Iteration.FetchNext` gives. */
    method FetchNext() returns (r: Result<ScoreDoc>)
      modifies this`scoreDocs, this`localIndex
      ensures var f := Iteration.FetchNext(Environment(), old(Position()));
              Position() == f.cursor && r == f.hit
    {
      if localIndex == |scoreDocs| {
        localIndex := 0;
        var m := FetchMoreResult();
        if m.Failure? {
          return Failure(m.fault);
        }
      }
      if localIndex < |scoreDocs| {
        r := Success(scoreDocs[localIndex]);
      } else {
        r := Failure(ArrayIndexOutOfBounds);
      }
      localIndex := localIndex + 1;
    }

    /**
      `toRecordId`: highlight every configured field into the query context, stopping at the
      first failure, then announce the record to the engine; the effects and the outcome are those
      `Convert` gives.
    */
    method ToRecordId(doc: Document, hit: ScoreDoc) returns (r: Result<ContextualRecordId>)
      modifies owner.context`fragments, owner.engine`announced
      ensures var cv := Convert(Environment(), doc, hit);
              owner.context.fragments == old(owner.context.fragments) + cv.fragments
              && owner.engine.announced == old(owner.engine.announced) + cv.added
              && (cv.result.Success? ==> r == Success(cv.result.value.id))
              && (cv.result.Failure? ==> r == Failure(cv.result.fault))
    {
      var env := Environment();
      var id := RecordIdOf(env, doc);
      var fields := owner.highlighted;
      ghost var all := Highlights(env, hit, doc, fields);
      for i := 0 to |fields|
        invariant old(owner.context.fragments) + all.added
                  == owner.context.fragments + Highlights(env, hit, doc, fields[i..]).added
        invariant all.failed == Highlights(env, hit, doc, fields[i..]).failed
        invariant owner.engine.announced == old(owner.engine.announced)
      {
        assert fields[i..][1..] == fields[i + 1..];
        var frags := FragmentsOf(env, hit, doc, fields[i]);
        if frags.None? {
          return Failure(LuceneIndexError);
        }
        owner.context.AddHighlightFragment(fields[i], frags.value);
      }
      owner.engine.OnRecordAddedToResultSet(id, doc, hit);
      return Success(id);
    }

    /**
      One pass through the body of the do-while loop of `next()`: fetch a hit, load its document,
      convert it, and decide whether to skip it. Its effects are those `Round` gives; it answers
      None when the loop goes round again.
    */
    method NextRound() returns (answer: Option<Result<ContextualRecordId>>)
      modifies this`scoreDocs, this`localIndex, owner.context`fragments, owner.engine`announced
      ensures var rd := Round(Environment(), old(Position()));
              (rd.Again? ==> answer.None? && Position() == rd.cursor
                             && owner.context.fragments == old(owner.context.fragments) + rd.fragments
                             && owner.engine.announced == old(owner.engine.announced) + [rd.record])
              && (rd.Stop? ==> !rd.run.outcome.OutOfFuel? && answer == Some(rd.run.outcome.Answer())
                               && Position() == rd.run.cursor
                               && owner.context.fragments == old(owner.context.fragments) + rd.run.fragments
                               && owner.engine.announced == old(owner.engine.announced) + rd.run.added)
    {
      var env := Environment();
      RoundFacts(env, Position());
      var hit := FetchNext();
      if hit.Failure? {
        return Some(Failure(hit.fault));
      }
      var doc := env.searcher.doc(hit.value.doc);
      if doc.None? {
        return Some(Failure(NullPointer));
      }
      var id := ToRecordId(doc.value, hit.value);
      if id.Failure? {
        return Some(Failure(id.fault));
      }
      if IsToSkip(env, id.value, doc.value) {
        return None;
      }
      return Some(Success(id.value));
    }

    /**
      `next()`: rounds until a hit is kept or one throws. Every round's effects on the query context
      and the engine are those `RunNext` gives, and so are the final paging state and the outcome;
      the count of returned records goes up only when a record is returned. The loop need not end
      (see `Quirks.NextCanLoopForever`): `fuel` bounds its rounds.
    */
    method Next(ghost fuel: nat) returns (r: Result<ContextualRecordId>)
      requires !RunNext(Environment(), Position(), fuel).outcome.OutOfFuel?
      modifies this`scoreDocs, this`localIndex, this`index, owner.context`fragments, owner.engine`announced
      ensures var run := RunNext(Environment(), old(Position()), fuel);
              !run.outcome.OutOfFuel? && r == run.outcome.Answer()
              && Position() == run.cursor
              && owner.context.fragments == old(owner.context.fragments) + run.fragments
              && owner.engine.announced == old(owner.engine.announced) + run.added
              && index == old(index) + (if run.outcome.Yield? then 1 else 0)
    {
      var env := Environment();
      ghost var run := RunNext(env, Position(), fuel);
      ghost var cursor := Position();
      ghost var left := fuel;
      ghost var fragments0 := owner.context.fragments;
      ghost var announced0 := owner.engine.announced;
      while true
        invariant Position() == cursor && index == old(index)
        invariant var rest := RunNext(env, cursor, left);
                  rest.outcome == run.outcome && rest.cursor == run.cursor
                  && fragments0 + run.fragments == owner.context.fragments + rest.fragments
                  && announced0 + run.added == owner.engine.announced + rest.added
        decreases left
      {
        RunNextStep(env, cursor, left);
        ghost var rd := Round(env, cursor);
        if rd.Again? {
          RunNextAgain(env, cursor, left, owner.context.fragments, owner.engine.announced);
        }
        var answer := NextRound();
        if answer.Some? {
          if answer.value.Success? {
            index := index + 1;
          }
          return answer.value;
        }
        cursor := rd.cursor;
        left := left - 1;
      }
    }

    /** `remove()` does nothing. */
    method Remove()
      ensures Position() == old(Position()) && index == old(index)
    {
    }
  }
}
