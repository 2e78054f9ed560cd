/** The shaper part of InMemoryShapedQueryCompilingExpressionVisitor.VisitShapedQueryExpression:
    binding removal first, then the move-next marker becomes
    `hasNext = enumerator.MoveNext()`, then the value buffer parameter becomes
    `enumerator.Current`. */
module InMemoryShapedQueryCompiler {
  import opened Wrappers
  import opened InMemoryExpressions
  import opened ProjectionBindingRemoval

  /** The expression that replaces the move-next marker: `hasNext = enumerator.MoveNext()`. */
  const HasNextAssignment: Expr :=
    Binary(Assign, Parameter(HasNextParameter), Call(MoveNext, Some(Parameter(EnumeratorParameter)), []))

  /** The expression that replaces the value buffer parameter: `enumerator.Current`. */
  const EnumeratorCurrent: Expr := MemberAccess(Parameter(EnumeratorParameter), "Current")

  /** The two singleton nodes the compiler replaces. */
  predicate IsMarker(x: Expr) {
    x.ValueBufferParameter? || x.MoveNextMarker?
  }

  /** ReplacingExpressionVisitor.Replace, whose visitor is not part of this model:
      assumed to turn every occurrence of `original` into `replacement` (not
      visited itself) and rebuild every other node from its replaced operands. */
  function Replace(e: Expr, original: Expr, replacement: Expr): Expr
    decreases e
  {
    if e == original then replacement
    else
      var cs := Children(e);
      Rebuild(e, seq(|cs|, i requires 0 <= i < |cs| => Replace(cs[i], original, replacement)))
  }

  /** The two replacements, in the compiler's order. */
  function ReplaceMarkers(e: Expr): Expr {
    Replace(Replace(e, MoveNextMarker, HasNextAssignment), ValueBufferParameter, EnumeratorCurrent)
  }

  /** The compiled shaper body, or the program error the rewrite raised. */
  function CompileShaperBody(q: ProjectionMapping, shaperBody: Expr): Result<Expr, CompileError> {
    var v :- RemoveProjectionBindings(q, map[], shaperBody);
    Ok(ReplaceMarkers(v.result))
  }

  /** The steps of VisitShapedQueryExpression that rewrite the shaper body, with a
      fresh binding-removing visitor. */
  method CompileShaper(q: ProjectionMapping, shaperBody: Expr) returns (r: Result<Expr, CompileError>)
    ensures r == CompileShaperBody(q, shaperBody)
  {
    var visitor := new ProjectionBindingRemovingVisitor(q);
    var newBody :- visitor.Visit(shaperBody);
    newBody := Replace(newBody, MoveNextMarker, HasNextAssignment);
    newBody := Replace(newBody, ValueBufferParameter, EnumeratorCurrent);
    r := Ok(newBody);
  }

  // ---------------------------------------------------------------------------
  // Properties
  // ---------------------------------------------------------------------------

  /** The operands of a replaced node are the replaced operands. */
  lemma ReplaceChildren(e: Expr, original: Expr, replacement: Expr)
    requires e != original
    ensures |Children(Replace(e, original, replacement))| == |Children(e)|
    ensures forall i :: 0 <= i < |Children(e)| ==>
              Children(Replace(e, original, replacement))[i] == Replace(Children(e)[i], original, replacement)
  {
  }

  /** After replacing a marker by an expression that does not contain it, the
      marker is gone; any other marker absent from the tree and from the
      replacement stays absent. */
  lemma {:induction false} ReplaceOccurs(x: Expr, e: Expr, original: Expr, replacement: Expr)
    requires IsMarker(x) && IsMarker(original) && !Occurs(x, replacement)
    requires x != original ==> !Occurs(x, e)
    ensures !Occurs(x, Replace(e, original, replacement))
    decreases e
  {
    if e != original {
      ReplaceChildren(e, original, replacement);
      var cs := Children(e);
      forall i | 0 <= i < |cs|
        ensures !Occurs(x, Children(Replace(e, original, replacement))[i])
      {
        ReplaceOccurs(x, cs[i], original, replacement);
      }
    }
  }

  /** Replacing a marker keeps the normal form, with the buffer every literal read
      uses replaced as well. */
  lemma {:induction false} ReplaceKeepsResolved(buf: Expr, e: Expr, original: Expr, replacement: Expr)
    requires IsMarker(original)
    requires Resolved(buf, e) && Resolved(Replace(buf, original, replacement), replacement)
    ensures Resolved(Replace(buf, original, replacement), Replace(e, original, replacement))
    decreases e
  {
    if e != original {
      ReplaceChildren(e, original, replacement);
      var cs := Children(e);
      forall i | 0 <= i < |cs|
        ensures Resolved(Replace(buf, original, replacement), Children(Replace(e, original, replacement))[i])
      {
        ReplaceKeepsResolved(buf, cs[i], original, replacement);
      }
      if e.Call? && e.callee.TryReadValue? {
        ReplaceKeepsLiteralRead(buf, e, original, replacement);
      }
      ResolvedFromChildren(Replace(buf, original, replacement), Replace(e, original, replacement));
    }
  }

  /** A literal read of `buf` stays a literal read, of the replaced buffer. */
  lemma ReplaceKeepsLiteralRead(buf: Expr, e: Expr, original: Expr, replacement: Expr)
    requires IsMarker(original) && e != original && IsLiteralRead(buf, e)
    ensures IsLiteralRead(Replace(buf, original, replacement), Replace(e, original, replacement))
  {
    ReplaceChildren(e, original, replacement);
    var k := if e.instance.Some? then 1 else 0;
    assert e.args[0] == Children(e)[k] && e.args[1] == Children(e)[k + 1];
    assert Children(e.args[1]) == [];
    ReplaceLeaf(e.args[1], original, replacement);
  }

  /** A tree in which `original` does not occur comes back unchanged. */
  lemma {:induction false} ReplaceAbsent(e: Expr, original: Expr, replacement: Expr)
    requires !Occurs(original, e)
    ensures Replace(e, original, replacement) == e
    decreases e
  {
    ReplaceChildren(e, original, replacement);
    var cs := Children(e);
    var replaced := seq(|cs|, i requires 0 <= i < |cs| => Replace(cs[i], original, replacement));
    forall i | 0 <= i < |cs|
      ensures replaced[i] == cs[i]
    {
      ReplaceAbsent(cs[i], original, replacement);
    }
    assert replaced == cs;
    RebuildChildren(e);
  }

  /** Wherever `original` occurs, `replacement` occurs in the result. */
  lemma {:induction false} ReplaceReaches(e: Expr, original: Expr, replacement: Expr)
    requires Occurs(original, e)
    ensures Occurs(replacement, Replace(e, original, replacement))
    decreases e
  {
    if e != original {
      var cs := Children(e);
      var i :| 0 <= i < |cs| && Occurs(original, cs[i]);
      ReplaceChildren(e, original, replacement);
      ReplaceReaches(cs[i], original, replacement);
      assert Occurs(replacement, Children(Replace(e, original, replacement))[i]);
    }
  }

  /** Compilation fails exactly when binding removal raises a program error, and
      with the same error. */
  lemma CompileFailsOnlyInBindingRemoval(q: ProjectionMapping, shaperBody: Expr)
    ensures CompileShaperBody(q, shaperBody).Err? <==> RemoveProjectionBindings(q, map[], shaperBody).Err?
    ensures CompileShaperBody(q, shaperBody).Err? ==>
              CompileShaperBody(q, shaperBody).error == RemoveProjectionBindings(q, map[], shaperBody).error
  {
  }

  /** A node without operands that is not the node replaced stays as it is. */
  lemma ReplaceLeaf(e: Expr, original: Expr, replacement: Expr)
    requires e != original && Children(e) == []
    ensures Replace(e, original, replacement) == e
  {
  }

  /** Neither replacement brings a marker in. */
  lemma ReplacementsHaveNoMarkers()
    ensures !Occurs(MoveNextMarker, HasNextAssignment)
    ensures !Occurs(MoveNextMarker, EnumeratorCurrent) && !Occurs(ValueBufferParameter, EnumeratorCurrent)
  {
    var enumerator := Parameter(EnumeratorParameter);
    var moveNext := Call(MoveNext, Some(enumerator), []);
    assert Children(enumerator) == [] && Children(moveNext) == [enumerator];
    assert !Occurs(MoveNextMarker, moveNext);
    assert Children(HasNextAssignment) == [Parameter(HasNextParameter), moveNext];
    assert Children(EnumeratorCurrent) == [enumerator];
  }

  /** After both replacements neither marker is left. */
  lemma ReplaceMarkersRemovesMarkers(e: Expr)
    ensures !Occurs(MoveNextMarker, ReplaceMarkers(e)) && !Occurs(ValueBufferParameter, ReplaceMarkers(e))
  {
    ReplacementsHaveNoMarkers();
    var step := Replace(e, MoveNextMarker, HasNextAssignment);
    ReplaceOccurs(MoveNextMarker, e, MoveNextMarker, HasNextAssignment);
    ReplaceOccurs(MoveNextMarker, step, ValueBufferParameter, EnumeratorCurrent);
    ReplaceOccurs(ValueBufferParameter, step, ValueBufferParameter, EnumeratorCurrent);
  }

  /** Neither replacement holds a projection binding or a TryReadValue call. */
  lemma ReplacementsResolved(buf: Expr)
    ensures Resolved(buf, HasNextAssignment) && Resolved(buf, EnumeratorCurrent)
  {
    var enumerator := Parameter(EnumeratorParameter);
    var moveNext := Call(MoveNext, Some(enumerator), []);
    assert Children(enumerator) == [] && Children(Parameter(HasNextParameter)) == [];
    assert Resolved(buf, enumerator) && Resolved(buf, Parameter(HasNextParameter));
    assert Children(moveNext) == [enumerator];
    assert Resolved(buf, moveNext);
    assert Children(HasNextAssignment) == [Parameter(HasNextParameter), moveNext];
    assert Children(EnumeratorCurrent) == [enumerator];
  }

  /** Literal reads of the value buffer parameter become literal reads of the
      enumerator's current row. */
  lemma ReplaceMarkersReadsCurrentRow(e: Expr)
    requires Resolved(ValueBufferParameter, e)
    ensures Resolved(EnumeratorCurrent, ReplaceMarkers(e))
  {
    ReplacementsResolved(ValueBufferParameter);
    ReplacementsResolved(EnumeratorCurrent);
    ReplaceLeaf(ValueBufferParameter, MoveNextMarker, HasNextAssignment);
    ReplaceKeepsResolved(ValueBufferParameter, e, MoveNextMarker, HasNextAssignment);
    var step := Replace(e, MoveNextMarker, HasNextAssignment);
    ReplaceKeepsResolved(ValueBufferParameter, step, ValueBufferParameter, EnumeratorCurrent);
  }

  /** The compiled shaper holds neither the move-next marker nor the value buffer
      parameter. */
  lemma CompiledShaperHasNoMarkers(q: ProjectionMapping, shaperBody: Expr)
    requires CompileShaperBody(q, shaperBody).Ok?
    ensures !Occurs(MoveNextMarker, CompileShaperBody(q, shaperBody).value)
    ensures !Occurs(ValueBufferParameter, CompileShaperBody(q, shaperBody).value)
  {
    ReplaceMarkersRemovesMarkers(RemoveProjectionBindings(q, map[], shaperBody).value.result);
  }

  /** Because binding removal runs before the replacements, every literal-index
      read it produces ends up reading the enumerator's current row: the compiled
      shaper holds no projection binding, and every TryReadValue in it reads
      `enumerator.Current` at a literal column index. */
  lemma CompiledShaperReadsCurrentRow(q: ProjectionMapping, shaperBody: Expr)
    requires MappingResolved(q) && Shapable(shaperBody)
    requires CompileShaperBody(q, shaperBody).Ok?
    ensures Resolved(EnumeratorCurrent, CompileShaperBody(q, shaperBody).value)
  {
    RemoveProjectionBindingsResolves(q, map[], shaperBody);
    ReplaceMarkersReadsCurrentRow(RemoveProjectionBindings(q, map[], shaperBody).value.result);
  }
}
