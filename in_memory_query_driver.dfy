/** The run-time half of the in-memory shaped query: `Query` lists the stored rows
    of an entity type as value buffers, and `_Shape` drives the compiled shaper
    over an enumerator of those buffers with the `hasNext` out-flag protocol. */
module InMemoryQueryDriver {
  import opened ClrTypes

  /** An in-memory table: its rows in storage order. */
  datatype Table = Table(rows: seq<seq<Value>>)

  datatype EntityType = EntityType(name: string)

  /** The in-memory store, as far as `Query` uses it: the tables holding the rows
      of an entity type. */
  datatype Store = Store(getTables: EntityType -> seq<Table>)

  /** InMemoryQueryContext: the query context with its store. */
  datatype QueryContext = QueryContext(store: Store)

  /** The buffers of one table's rows, in row order. */
  function TableBuffers(t: Table): (r: seq<ValueBuffer>)
    ensures |r| == |t.rows|
    ensures forall k :: 0 <= k < |r| ==> r[k] == ValueBuffer(t.rows[k])
  {
    seq(|t.rows|, k requires 0 <= k < |t.rows| => ValueBuffer(t.rows[k]))
  }

  /** The rows of the tables, table after table (`SelectMany` over the tables). */
  function AllBuffers(tables: seq<Table>): seq<ValueBuffer>
    decreases |tables|
  {
    if tables == [] then [] else TableBuffers(tables[0]) + AllBuffers(tables[1..])
  }

  /** InMemoryShapedQueryCompilingExpressionVisitor.Query: one buffer per stored
      row of the entity type, over all its tables. */
  function Query(queryContext: QueryContext, entityType: EntityType): (r: seq<ValueBuffer>)
    ensures var tables := queryContext.store.getTables(entityType);
            |r| == RowOffset(tables, |tables|)
  {
    var tables := queryContext.store.getTables(entityType);
    AllBuffersLength(tables);
    AllBuffers(tables)
  }

  /** The number of rows in the first `t` tables: where table `t`'s rows start in
      the concatenation. */
  function RowOffset(tables: seq<Table>, t: nat): nat
    requires t <= |tables|
  {
    if t == 0 then 0 else RowOffset(tables, t - 1) + |tables[t - 1].rows|
  }

  lemma {:induction false} RowOffsetOfTail(tables: seq<Table>, t: nat)
    requires 0 < t <= |tables|
    ensures RowOffset(tables, t) == |tables[0].rows| + RowOffset(tables[1..], t - 1)
    decreases t
  {
    if t > 1 {
      RowOffsetOfTail(tables, t - 1);
    }
  }

  /** `Query` yields as many buffers as there are rows in all the tables. */
  lemma {:induction false} AllBuffersLength(tables: seq<Table>)
    ensures |AllBuffers(tables)| == RowOffset(tables, |tables|)
    decreases |tables|
  {
    if tables != [] {
      AllBuffersLength(tables[1..]);
      RowOffsetOfTail(tables, |tables|);
    }
  }

  /** Row `k` of table `t` is the buffer at position `RowOffset(tables, t) + k`. */
  lemma {:induction false} AllBuffersAt(tables: seq<Table>, t: nat, k: nat)
    requires t < |tables| && k < |tables[t].rows|
    ensures RowOffset(tables, t) + k < |AllBuffers(tables)|
    ensures AllBuffers(tables)[RowOffset(tables, t) + k] == ValueBuffer(tables[t].rows[k])
    decreases t
  {
    var head := TableBuffers(tables[0]);
    if t == 0 {
      assert AllBuffers(tables)[k] == head[k];
    } else {
      AllBuffersAt(tables[1..], t - 1, k);
      RowOffsetOfTail(tables, t);
      assert tables[t] == tables[1..][t - 1];
      assert AllBuffers(tables)[RowOffset(tables, t) + k] == AllBuffers(tables[1..])[RowOffset(tables[1..], t - 1) + k];
    }
  }

  /** Conversely, every buffer `Query` yields is the buffer of some stored row. */
  lemma {:induction false} AllBuffersFromRows(tables: seq<Table>, j: int)
    requires 0 <= j < |AllBuffers(tables)|
    ensures exists t, k :: 0 <= t < |tables| && 0 <= k < |tables[t].rows|
                           && AllBuffers(tables)[j] == ValueBuffer(tables[t].rows[k])
    decreases |tables|
  {
    var head := TableBuffers(tables[0]);
    if j < |head| {
      assert AllBuffers(tables)[j] == ValueBuffer(tables[0].rows[j]);
    } else {
      AllBuffersFromRows(tables[1..], j - |head|);
      var t, k :| 0 <= t < |tables[1..]| && 0 <= k < |tables[1..][t].rows|
                  && AllBuffers(tables[1..])[j - |head|] == ValueBuffer(tables[1..][t].rows[k]);
      assert AllBuffers(tables)[j] == ValueBuffer(tables[t + 1].rows[k]);
    }
  }

  // ---------------------------------------------------------------------------
  // The enumerator and the shaper
  // ---------------------------------------------------------------------------

  /** An IEnumerator<ValueBuffer> over `rows`: before the first row at index -1,
      on a row at 0..|rows|-1, past the end at |rows|. */
  datatype Cursor = Cursor(rows: seq<ValueBuffer>, index: int)
  {
    predicate Valid() {
      -1 <= index <= |rows|
    }

    predicate OnRow() {
      0 <= index < |rows|
    }

    /** IEnumerator.Current. */
    function Current(): ValueBuffer
      requires OnRow()
    {
      rows[index]
    }
  }

  /** GetEnumerator: positioned before the first row. */
  function Start(rows: seq<ValueBuffer>): (c: Cursor)
    ensures c.Valid() && !c.OnRow()
  {
    Cursor(rows, -1)
  }

  /** The enumerator after IEnumerator.MoveNext, and its result. */
  datatype Moved = Moved(cursor: Cursor, hasNext: bool)

  /** IEnumerator.MoveNext: advances one row, staying past the end once there, and
      reports whether it is on a row. */
  function MoveNext(c: Cursor): (m: Moved)
    requires c.Valid()
    ensures m.cursor.Valid() && m.cursor.rows == c.rows
    ensures m.hasNext <==> m.cursor.OnRow()
    ensures c.index < |c.rows| ==> m.cursor.index == c.index + 1
    ensures c.index == |c.rows| ==> m.cursor == c
  {
    var next := if c.index < |c.rows| then c.index + 1 else c.index;
    Moved(Cursor(c.rows, next), next < |c.rows|)
  }

  /** One call of the compiled shaper delegate `Shaper<T>(queryContext, enumerator,
      out hasNext)`: its result, the enumerator after the call, and the out flag. */
  datatype ShaperStep<R> = ShaperStep(result: R, cursor: Cursor, hasNext: bool)

  type Shaper<!R> = (QueryContext, Cursor) -> ShaperStep<R>

  /** The out-flag protocol the compiled shaper keeps: called on a row, it moves
      the same enumerator forward (through the `hasNext = enumerator.MoveNext()`
      that replaced the move-next marker), and reports `hasNext` only while the
      enumerator is on a row. */
  predicate StepAdvances<R>(c: Cursor, s: ShaperStep<R>) {
    && s.cursor.rows == c.rows
    && c.index < s.cursor.index <= |c.rows|
    && (s.hasNext ==> s.cursor.OnRow())
  }

  ghost predicate Advances<R>(shaper: Shaper<R>) {
    forall qc: QueryContext, c: Cursor :: c.OnRow() ==> StepAdvances(c, shaper(qc, c))
  }

  /** The results of `while (hasNext) yield return shaper(...)` from enumerator `c`
      with flag `hasNext`. */
  ghost function Drive<R>(qc: QueryContext, shaper: Shaper<R>, c: Cursor, hasNext: bool): seq<R>
    requires Advances(shaper) && c.Valid() && (hasNext ==> c.OnRow())
    decreases |c.rows| - c.index, hasNext
  {
    if !hasNext then []
    else
      var s := shaper(qc, c);
      [s.result] + Drive(qc, shaper, s.cursor, s.hasNext)
  }

  /** The enumerator positions the shaper is invoked on, in order. */
  ghost function Invocations<R>(qc: QueryContext, shaper: Shaper<R>, c: Cursor, hasNext: bool): seq<Cursor>
    requires Advances(shaper) && c.Valid() && (hasNext ==> c.OnRow())
    decreases |c.rows| - c.index, hasNext
  {
    if !hasNext then []
    else
      var s := shaper(qc, c);
      [c] + Invocations(qc, shaper, s.cursor, s.hasNext)
  }

  /** `_Shape`'s results: one MoveNext up front, then the loop. */
  ghost function ShapeAll<R>(innerEnumerable: seq<ValueBuffer>, qc: QueryContext, shaper: Shaper<R>): seq<R>
    requires Advances(shaper)
  {
    var m := MoveNext(Start(innerEnumerable));
    Drive(qc, shaper, m.cursor, m.hasNext)
  }

  /** The positions `_Shape` invokes the shaper on. */
  ghost function ShapeInvocations<R>(innerEnumerable: seq<ValueBuffer>, qc: QueryContext, shaper: Shaper<R>): seq<Cursor>
    requires Advances(shaper)
  {
    var m := MoveNext(Start(innerEnumerable));
    Invocations(qc, shaper, m.cursor, m.hasNext)
  }

  /** InMemoryShapedQueryCompilingExpressionVisitor._Shape, with the lazily
      yielded results collected in order. */
  method Shape<R>(innerEnumerable: seq<ValueBuffer>, queryContext: QueryContext, shaper: Shaper<R>) returns (results: seq<R>)
    requires Advances(shaper)
    ensures results == ShapeAll(innerEnumerable, queryContext, shaper)
  {
    var moved := MoveNext(Start(innerEnumerable));
    var enumerator := moved.cursor;
    var hasNext := moved.hasNext;
    results := [];
    while hasNext
      invariant enumerator.Valid() && enumerator.rows == innerEnumerable
      invariant hasNext ==> enumerator.OnRow()
      invariant results + Drive(queryContext, shaper, enumerator, hasNext) == ShapeAll(innerEnumerable, queryContext, shaper)
      decreases |innerEnumerable| - enumerator.index
    {
      var step := shaper(queryContext, enumerator);
      results := results + [step.result];
      enumerator := step.cursor;
      hasNext := step.hasNext;
    }
    assert Drive(queryContext, shaper, enumerator, hasNext) == [];
    assert results + [] == results;
  }

  // ---------------------------------------------------------------------------
  // Properties
  // ---------------------------------------------------------------------------

  /** The loop's protocol: the shaper is invoked once per result, on the
      enumerator as the previous invocation left it, and the loop goes on exactly
      while the invocation reported `hasNext`. */
  lemma {:induction false} DriveProtocol<R>(qc: QueryContext, shaper: Shaper<R>, c: Cursor, hasNext: bool)
    requires Advances(shaper) && c.Valid() && (hasNext ==> c.OnRow())
    ensures var rs := Drive(qc, shaper, c, hasNext);
            var cs := Invocations(qc, shaper, c, hasNext);
            && |rs| == |cs|
            && (hasNext <==> |cs| > 0)
            && (hasNext ==> cs[0] == c)
            && (forall i :: 0 <= i < |cs| ==> cs[i].OnRow() && rs[i] == shaper(qc, cs[i]).result)
            && (forall i :: 0 <= i < |cs| - 1 ==> shaper(qc, cs[i]).hasNext && cs[i + 1] == shaper(qc, cs[i]).cursor)
            && (|cs| > 0 ==> !shaper(qc, cs[|cs| - 1]).hasNext)
    decreases |c.rows| - c.index, hasNext
  {
    if hasNext {
      var s := shaper(qc, c);
      DriveProtocol(qc, shaper, s.cursor, s.hasNext);
      var rs := Drive(qc, shaper, c, hasNext);
      var cs := Invocations(qc, shaper, c, hasNext);
      var cs' := Invocations(qc, shaper, s.cursor, s.hasNext);
      assert cs == [c] + cs';
      forall i | 0 <= i < |cs| - 1
        ensures shaper(qc, cs[i]).hasNext && cs[i + 1] == shaper(qc, cs[i]).cursor
      {
        if i > 0 {
          assert cs[i] == cs'[i - 1] && cs[i + 1] == cs'[i];
        }
      }
    }
  }

  /** An empty source yields no results and never invokes the shaper. */
  lemma ShapeEmptySource<R>(qc: QueryContext, shaper: Shaper<R>)
    requires Advances(shaper)
    ensures ShapeAll([], qc, shaper) == [] && ShapeInvocations([], qc, shaper) == []
  {
    assert !MoveNext(Start([])).hasNext;
  }

  /** A non-empty source invokes the shaper first on its first row, once per
      result, and stops when the shaper reports no next row. */
  lemma ShapeProtocol<R>(innerEnumerable: seq<ValueBuffer>, qc: QueryContext, shaper: Shaper<R>)
    requires Advances(shaper)
    ensures var rs := ShapeAll(innerEnumerable, qc, shaper);
            var cs := ShapeInvocations(innerEnumerable, qc, shaper);
            && |rs| == |cs|
            && (innerEnumerable != [] <==> |cs| > 0)
            && (innerEnumerable != [] ==> cs[0] == Cursor(innerEnumerable, 0))
            && (forall i :: 0 <= i < |cs| ==> rs[i] == shaper(qc, cs[i]).result)
            && (forall i :: 0 <= i < |cs| - 1 ==> shaper(qc, cs[i]).hasNext && cs[i + 1] == shaper(qc, cs[i]).cursor)
            && (|cs| > 0 ==> !shaper(qc, cs[|cs| - 1]).hasNext)
  {
    var m := MoveNext(Start(innerEnumerable));
    DriveProtocol(qc, shaper, m.cursor, m.hasNext);
  }

  lemma {:induction false} DriveBound<R>(qc: QueryContext, shaper: Shaper<R>, c: Cursor, hasNext: bool)
    requires Advances(shaper) && c.Valid() && (hasNext ==> c.OnRow())
    ensures hasNext ==> |Drive(qc, shaper, c, hasNext)| <= |c.rows| - c.index
    decreases |c.rows| - c.index, hasNext
  {
    if hasNext {
      var s := shaper(qc, c);
      DriveBound(qc, shaper, s.cursor, s.hasNext);
    }
  }

  /** Every invocation consumes at least one row: never more results than rows. */
  lemma ShapeYieldsAtMostOnePerRow<R>(innerEnumerable: seq<ValueBuffer>, qc: QueryContext, shaper: Shaper<R>)
    requires Advances(shaper)
    ensures |ShapeAll(innerEnumerable, qc, shaper)| <= |innerEnumerable|
  {
    var m := MoveNext(Start(innerEnumerable));
    DriveBound(qc, shaper, m.cursor, m.hasNext);
  }

  /** The shaper compiled from a body that reads the current row and then reaches
      the move-next marker once: it shapes `enumerator.Current` with `f` and sets
      `hasNext = enumerator.MoveNext()`. */
  function RowShaper<R>(f: (QueryContext, ValueBuffer) -> R): Shaper<R> {
    (qc: QueryContext, c: Cursor) =>
      if c.OnRow() then
        var m := MoveNext(c);
        ShaperStep(f(qc, c.Current()), m.cursor, m.hasNext)
      else ShaperStep(f(qc, ValueBuffer([])), c, false)
  }

  lemma RowShaperAdvances<R>(f: (QueryContext, ValueBuffer) -> R)
    ensures Advances(RowShaper(f))
  {
    forall qc: QueryContext, c: Cursor | c.OnRow()
      ensures StepAdvances(c, RowShaper(f)(qc, c))
    {
      assert RowShaper(f)(qc, c).cursor == MoveNext(c).cursor;
    }
  }

  lemma {:induction false} DriveRowShaper<R>(qc: QueryContext, f: (QueryContext, ValueBuffer) -> R, c: Cursor)
    requires Advances(RowShaper(f)) && c.OnRow()
    ensures Drive(qc, RowShaper(f), c, true) == seq(|c.rows| - c.index, i requires 0 <= i < |c.rows| - c.index => f(qc, c.rows[c.index + i]))
    decreases |c.rows| - c.index
  {
    var s := RowShaper(f)(qc, c);
    var want := seq(|c.rows| - c.index, i requires 0 <= i < |c.rows| - c.index => f(qc, c.rows[c.index + i]));
    if s.hasNext {
      DriveRowShaper(qc, f, s.cursor);
      assert want == [f(qc, c.Current())] + Drive(qc, RowShaper(f), s.cursor, true);
    } else {
      assert want == [f(qc, c.Current())];
    }
  }

  /** With a shaper that consumes one row per call, `_Shape` over any source (in
      particular `Query`'s) shapes every row exactly once, in order. */
  lemma ShapeEveryRow<R>(innerEnumerable: seq<ValueBuffer>, qc: QueryContext, f: (QueryContext, ValueBuffer) -> R)
    ensures Advances(RowShaper(f))
    ensures ShapeAll(innerEnumerable, qc, RowShaper(f))
         == seq(|innerEnumerable|, i requires 0 <= i < |innerEnumerable| => f(qc, innerEnumerable[i]))
  {
    RowShaperAdvances(f);
    if innerEnumerable != [] {
      DriveRowShaper(qc, f, Cursor(innerEnumerable, 0));
    }
  }
}
