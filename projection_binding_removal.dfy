/** InMemoryProjectionBindingRemovingExpressionVisitor: rewrites a shaper so that
    every TryReadValue reads ValueBufferParameter at a literal column index.
    RemoveProjectionBindings is the reference definition, with the visitor's dictionary
    threaded left to right in visiting order; ProjectionBindingRemovingVisitor is
    the visitor itself, a class whose method updates that dictionary in place. */
module ProjectionBindingRemoval {
  import opened Wrappers
  import opened ClrInt
  import opened ClrTypes
  import opened InMemoryExpressions

  /** A rewritten value together with the dictionary after the visit. */
  datatype Visited<T> = Visited(result: T, bindings: Bindings)

  /** InMemoryQueryExpression.GetProjectionExpression: a lookup in the projection mapping. */
  function GetProjectionExpression(q: ProjectionMapping, member: ProjectionMember): (r: Result<Expr, CompileError>)
    ensures r.Ok? <==> member in q
    ensures r.Ok? ==> r.value == q[member]
    ensures r.Err? ==> r.error == ProjectionMemberNotFound(member)
  {
    if member in q then Ok(q[member]) else Err(ProjectionMemberNotFound(member))
  }

  /** The cast `((EntityValuesExpression)x).StartIndex`. */
  function StartIndexOf(x: Expr): Result<Int32, CompileError> {
    if x.EntityValues? then Ok(x.startIndex) else Err(InvalidCast("EntityValuesExpression"))
  }

  /** The cast `(int)((ConstantExpression)x).Value`. */
  function ConstantIndex(x: Expr): Result<Int32, CompileError> {
    if x.Constant? && x.value.IntConstant? then Ok(x.value.n) else Err(InvalidCast("ConstantExpression of int"))
  }

  /** The start index TryReadValue's first argument stands for: a projection
      binding's entity start index, or the index recorded for the
      MaterializationContext variable whose buffer is read. */
  function IndexOffset(q: ProjectionMapping, b: Bindings, source: Expr): Result<Int32, CompileError> {
    match source
    case ProjectionBinding(member) =>
      var p :- GetProjectionExpression(q, member);
      StartIndexOf(p)
    case Call(_, inst, _) =>
      if inst.None? then Err(NullDictionaryKey)
      else if !inst.value.Parameter? then Err(InvalidCast("ParameterExpression"))
      else if inst.value.p in b then Ok(b[inst.value.p])
      else Err(MaterializationContextNotBound(inst.value.p))
    case _ => Err(InvalidCast("MethodCallExpression"))
  }

  /** The rewritten TryReadValue call: same method, the value buffer parameter,
      the literal index, and the untouched property argument. */
  function LiteralRead(m: MethodRef, index: Int32, property: Expr): Expr {
    Call(m, None, [ValueBufferParameter, Constant(IntConstant(index)), property])
  }

  /** The rewritten context assignment: same variable, same constructor, the
      empty value buffer, and the untouched second argument. */
  function EmptyBufferContext(target: Expr, ctor: ConstructorRef, context: Expr): Expr {
    Binary(Assign, target, New(ctor, [Constant(EmptyValueBuffer), context]))
  }

  /** The visit of `e` starting from dictionary `b`. */
  function RemoveProjectionBindings(q: ProjectionMapping, b: Bindings, e: Expr): Result<Visited<Expr>, CompileError>
    decreases e
  {
    match e
    case Binary(op, left, right) =>
      if IsContextAssignment(e) then
        if !right.New? then Err(InvalidCast("NewExpression"))
        else if |right.args| != 2 then Err(ArgumentCountMismatch)
        else
          var inner :- RemoveProjectionBindings(q, b, right.args[0]);
          var start :- StartIndexOf(inner.result);
          Ok(Visited(EmptyBufferContext(left, right.ctor, right.args[1]), inner.bindings[left.p := start]))
      else
        var l :- RemoveProjectionBindings(q, b, left);
        var r :- RemoveProjectionBindings(q, l.bindings, right);
        Ok(Visited(Binary(op, l.result, r.result), r.bindings))
    case Call(m, inst, args) =>
      if m.TryReadValue? then
        if |args| != 3 then Err(ArgumentCountMismatch)
        else
          var originalIndex :- ConstantIndex(args[1]);
          var offset :- IndexOffset(q, b, args[0]);
          Ok(Visited(LiteralRead(m, UncheckedAdd(offset, originalIndex), args[2]), b))
      else if inst.None? then
        var a :- RemoveAll(q, b, args);
        Ok(Visited(Call(m, None, a.result), a.bindings))
      else
        var i :- RemoveProjectionBindings(q, b, inst.value);
        var a :- RemoveAll(q, i.bindings, args);
        Ok(Visited(Call(m, Some(i.result), a.result), a.bindings))
    case ProjectionBinding(member) =>
      var p :- GetProjectionExpression(q, member);
      Ok(Visited(p, b))
    case New(ctor, args) =>
      var a :- RemoveAll(q, b, args);
      Ok(Visited(New(ctor, a.result), a.bindings))
    case MemberAccess(t, name) =>
      var v :- RemoveProjectionBindings(q, b, t);
      Ok(Visited(MemberAccess(v.result, name), v.bindings))
    case Node(kind, cs) =>
      var a :- RemoveAll(q, b, cs);
      Ok(Visited(Node(kind, a.result), a.bindings))
    case _ => Ok(Visited(e, b))
  }

  /** The visit of a list of operands, left to right. */
  function RemoveAll(q: ProjectionMapping, b: Bindings, cs: seq<Expr>): Result<Visited<seq<Expr>>, CompileError>
    decreases cs
  {
    if cs == [] then Ok(Visited([], b))
    else
      var h :- RemoveProjectionBindings(q, b, cs[0]);
      var t :- RemoveAll(q, h.bindings, cs[1..]);
      Ok(Visited([h.result] + t.result, t.bindings))
  }

  /** The visitor's result and its dictionary agree with RemoveProjectionBindings. On a
      program error only the error is specified: the visitor is abandoned. */
  predicate Agrees<T(==)>(spec: Result<Visited<T>, CompileError>, r: Result<T, CompileError>, b: Bindings) {
    match spec
    case Ok(v) => r == Ok(v.result) && b == v.bindings
    case Err(err) => r == Err(err)
  }

  /** `r` with `prefix` put in front of its rewritten operands. */
  function Prepend(prefix: seq<Expr>, r: Result<Visited<seq<Expr>>, CompileError>): Result<Visited<seq<Expr>>, CompileError> {
    match r
    case Ok(v) => Ok(Visited(prefix + v.result, v.bindings))
    case Err(err) => Err(err)
  }

  lemma PrependNothing(r: Result<Visited<seq<Expr>>, CompileError>)
    ensures Prepend([], r) == r
  {
    if r.Ok? {
      assert [] + r.value.result == r.value.result;
    }
  }

  lemma PrependTwice(a: seq<Expr>, b: seq<Expr>, r: Result<Visited<seq<Expr>>, CompileError>)
    ensures Prepend(a, Prepend(b, r)) == Prepend(a + b, r)
  {
    if r.Ok? {
      assert a + (b + r.value.result) == (a + b) + r.value.result;
    }
  }

  /** One step of the left-to-right visit of an operand list. */
  lemma RemoveAllStep(q: ProjectionMapping, b: Bindings, cs: seq<Expr>)
    requires cs != []
    ensures RemoveAll(q, b, cs) ==
      match RemoveProjectionBindings(q, b, cs[0])
      case Ok(h) => Prepend([h.result], RemoveAll(q, h.bindings, cs[1..]))
      case Err(err) => Err(err)
  {
  }

  class ProjectionBindingRemovingVisitor {
    const queryExpression: ProjectionMapping
    var materializationContextBindings: Bindings

    constructor (queryExpression: ProjectionMapping)
      ensures this.queryExpression == queryExpression
      ensures materializationContextBindings == map[]
    {
      this.queryExpression := queryExpression;
      materializationContextBindings := map[];
    }

    /** Visit (VisitBinary, VisitMethodCall, VisitExtension and the base visits). */
    method Visit(e: Expr) returns (r: Result<Expr, CompileError>)
      modifies this
      decreases e
      ensures Agrees(RemoveProjectionBindings(queryExpression, old(materializationContextBindings), e), r, materializationContextBindings)
    {
      match e
      case Binary(op, left, right) =>
        if IsContextAssignment(e) {
          if !right.New? {
            return Err(InvalidCast("NewExpression"));
          }
          if |right.args| != 2 {
            return Err(ArgumentCountMismatch);
          }
          var inner :- Visit(right.args[0]);
          var start :- StartIndexOf(inner);
          materializationContextBindings := materializationContextBindings[left.p := start];
          r := Ok(EmptyBufferContext(left, right.ctor, right.args[1]));
        } else {
          var l :- Visit(left);
          var rr :- Visit(right);
          r := Ok(Binary(op, l, rr));
        }
      case Call(m, inst, args) =>
        if m.TryReadValue? {
          if |args| != 3 {
            return Err(ArgumentCountMismatch);
          }
          var originalIndex :- ConstantIndex(args[1]);
          var offset :- IndexOffset(queryExpression, materializationContextBindings, args[0]);
          r := Ok(LiteralRead(m, UncheckedAdd(offset, originalIndex), args[2]));
        } else if inst.None? {
          var a :- VisitAll(args);
          r := Ok(Call(m, None, a));
        } else {
          var i :- Visit(inst.value);
          var a :- VisitAll(args);
          r := Ok(Call(m, Some(i), a));
        }
      case ProjectionBinding(member) =>
        r := GetProjectionExpression(queryExpression, member);
      case New(ctor, args) =>
        var a :- VisitAll(args);
        r := Ok(New(ctor, a));
      case MemberAccess(t, name) =>
        var v :- Visit(t);
        r := Ok(MemberAccess(v, name));
      case Node(kind, cs) =>
        var a :- VisitAll(cs);
        r := Ok(Node(kind, a));
      case _ =>
        r := Ok(e);
    }

    /** The base visitor's visit of an operand list, left to right. */
    method VisitAll(cs: seq<Expr>) returns (r: Result<seq<Expr>, CompileError>)
      modifies this
      decreases cs
      ensures Agrees(RemoveAll(queryExpression, old(materializationContextBindings), cs), r, materializationContextBindings)
    {
      var visited: seq<Expr> := [];
      var i := 0;
      assert cs[i..] == cs;
      PrependNothing(RemoveAll(queryExpression, materializationContextBindings, cs));
      while i < |cs|
        invariant 0 <= i <= |cs|
        invariant RemoveAll(queryExpression, old(materializationContextBindings), cs)
               == Prepend(visited, RemoveAll(queryExpression, materializationContextBindings, cs[i..]))
      {
        assert cs[i..][0] == cs[i] && cs[i..][1..] == cs[i + 1..];
        RemoveAllStep(queryExpression, materializationContextBindings, cs[i..]);
        var c :- Visit(cs[i]);
        PrependTwice(visited, [c], RemoveAll(queryExpression, materializationContextBindings, cs[i + 1..]));
        visited := visited + [c];
        i := i + 1;
      }
      assert cs[i..] == [] && visited + [] == visited;
      r := Ok(visited);
    }
  }

  // ---------------------------------------------------------------------------
  // Properties of the rewrite
  // ---------------------------------------------------------------------------

  /** An assignment to a MaterializationContext variable constructs the context
      from the empty value buffer with the same constructor and the same second
      argument, and records for the variable the start index of the visited
      first argument; an earlier entry for the variable is overwritten. */
  lemma ContextAssignmentRecordsStartIndex(q: ProjectionMapping, b: Bindings, p: ParameterRef, ctor: ConstructorRef, a0: Expr, a1: Expr)
    requires p.Type() == MaterializationContextType
    ensures var r := RemoveProjectionBindings(q, b, Binary(Assign, Parameter(p), New(ctor, [a0, a1])));
            var inner := RemoveProjectionBindings(q, b, a0);
            && (r.Ok? <==> inner.Ok? && inner.value.result.EntityValues?)
            && (r.Ok? ==>
                  && r.value.result == Binary(Assign, Parameter(p), New(ctor, [Constant(EmptyValueBuffer), a1]))
                  && p in r.value.bindings
                  && r.value.bindings[p] == inner.value.result.startIndex
                  && forall p' :: p' != p && p' in inner.value.bindings ==> p' in r.value.bindings && r.value.bindings[p'] == inner.value.bindings[p'])
  {
  }

  /** A TryReadValue whose buffer is a projection binding reads the value buffer
      parameter at the member's entity start index plus the original index. */
  lemma ProjectionReadUsesProjectionStartIndex(q: ProjectionMapping, b: Bindings, t: ClrType, inst: Option<Expr>, m: ProjectionMember, i: Int32, property: Expr)
    ensures var r := RemoveProjectionBindings(q, b, Call(TryReadValue(t), inst, [ProjectionBinding(m), Constant(IntConstant(i)), property]));
            && (m !in q ==> r == Err(ProjectionMemberNotFound(m)))
            && (m in q && !q[m].EntityValues? ==> r.Err?)
            && (m in q && q[m].EntityValues? ==>
                  && r.Ok? && r.value.bindings == b
                  && r.value.result == Call(TryReadValue(t), None, [ValueBufferParameter, Constant(IntConstant(UncheckedAdd(q[m].startIndex, i))), property])
                  && (InInt32Range(q[m].startIndex as int + i as int) ==> r.value.result.args[1].value.n as int == q[m].startIndex as int + i as int))
  {
  }

  /** A TryReadValue whose buffer comes from a MaterializationContext variable
      uses the start index recorded for that variable, and fails when none has
      been recorded yet. */
  lemma ContextReadUsesRecordedStartIndex(q: ProjectionMapping, b: Bindings, t: ClrType, inst: Option<Expr>, getter: MethodRef, p: ParameterRef, getterArgs: seq<Expr>, i: Int32, property: Expr)
    ensures var r := RemoveProjectionBindings(q, b, Call(TryReadValue(t), inst, [Call(getter, Some(Parameter(p)), getterArgs), Constant(IntConstant(i)), property]));
            && (p !in b ==> r == Err(MaterializationContextNotBound(p)))
            && (p in b ==>
                  && r.Ok? && r.value.bindings == b
                  && r.value.result == Call(TryReadValue(t), None, [ValueBufferParameter, Constant(IntConstant(UncheckedAdd(b[p], i))), property]))
  {
  }

  /** Every successfully rewritten TryReadValue keeps its method and its third
      argument, reads the value buffer parameter at a literal index, and leaves
      the dictionary unchanged. */
  lemma TryReadValueBecomesLiteralRead(q: ProjectionMapping, b: Bindings, e: Expr)
    requires e.Call? && e.callee.TryReadValue?
    requires RemoveProjectionBindings(q, b, e).Ok?
    ensures var r := RemoveProjectionBindings(q, b, e).value;
            && r.bindings == b
            && IsLiteralRead(ValueBufferParameter, r.result)
            && r.result.callee == e.callee
            && r.result.instance == None
            && r.result.args[2] == e.args[2]
  {
  }

  /** A standalone projection binding is replaced by the mapping's expression for
      its member, which is not visited further. */
  lemma ProjectionBindingReplaced(q: ProjectionMapping, b: Bindings, m: ProjectionMember)
    ensures RemoveProjectionBindings(q, b, ProjectionBinding(m))
         == if m in q then Ok(Visited(q[m], b)) else Err(ProjectionMemberNotFound(m))
  {
  }

  /** Normal form: when the mapping's expressions and the operands the rewrite
      copies unvisited are already in normal form, the rewritten shaper holds no
      projection binding and every TryReadValue in it reads the value buffer
      parameter at a literal index. */
  lemma {:induction false} RemoveProjectionBindingsResolves(q: ProjectionMapping, b: Bindings, e: Expr)
    requires MappingResolved(q) && Shapable(e)
    requires RemoveProjectionBindings(q, b, e).Ok?
    ensures Resolved(ValueBufferParameter, RemoveProjectionBindings(q, b, e).value.result)
    decreases e, 1
  {
    var res := RemoveProjectionBindings(q, b, e).value.result;
    match e
    case Binary(_, _, _) =>
      BinaryResolves(q, b, e);
    case Call(_, _, _) =>
      CallResolves(q, b, e);
    case ProjectionBinding(m) =>
    case New(_, args) =>
      RemoveAllResolves(q, b, args);
      ResolvedFromChildren(ValueBufferParameter, res);
    case MemberAccess(t, _) =>
      RemoveProjectionBindingsResolves(q, b, t);
      ResolvedFromChildren(ValueBufferParameter, res);
    case Node(_, cs) =>
      RemoveAllResolves(q, b, cs);
      ResolvedFromChildren(ValueBufferParameter, res);
    case _ =>
      ResolvedFromChildren(ValueBufferParameter, res);
  }

  /** RemoveProjectionBindingsResolves for a binary node. */
  lemma {:induction false} BinaryResolves(q: ProjectionMapping, b: Bindings, e: Expr)
    requires e.Binary? && MappingResolved(q) && Shapable(e)
    requires RemoveProjectionBindings(q, b, e).Ok?
    ensures Resolved(ValueBufferParameter, RemoveProjectionBindings(q, b, e).value.result)
    decreases e, 0
  {
    var res := RemoveProjectionBindings(q, b, e).value.result;
    if IsContextAssignment(e) {
      assert res == EmptyBufferContext(e.left, e.right.ctor, e.right.args[1]);
      ResolvedFromChildren(ValueBufferParameter, res.right);
    } else {
      RemoveProjectionBindingsResolves(q, b, e.left);
      var l := RemoveProjectionBindings(q, b, e.left).value;
      RemoveProjectionBindingsResolves(q, l.bindings, e.right);
      var r := RemoveProjectionBindings(q, l.bindings, e.right).value;
      assert res == Binary(e.op, l.result, r.result);
    }
    ResolvedFromChildren(ValueBufferParameter, res);
  }

  /** RemoveProjectionBindingsResolves for a call. */
  lemma {:induction false} CallResolves(q: ProjectionMapping, b: Bindings, e: Expr)
    requires e.Call? && MappingResolved(q) && Shapable(e)
    requires RemoveProjectionBindings(q, b, e).Ok?
    ensures Resolved(ValueBufferParameter, RemoveProjectionBindings(q, b, e).value.result)
    decreases e, 0
  {
    var res := RemoveProjectionBindings(q, b, e).value.result;
    if e.callee.TryReadValue? {
      assert res.args[2] == e.args[2];
    } else if e.instance.None? {
      RemoveAllResolves(q, b, e.args);
    } else {
      RemoveProjectionBindingsResolves(q, b, e.instance.value);
      var i := RemoveProjectionBindings(q, b, e.instance.value).value;
      RemoveAllResolves(q, i.bindings, e.args);
      var a := RemoveAll(q, i.bindings, e.args).value;
      assert res == Call(e.callee, Some(i.result), a.result);
    }
    ResolvedFromChildren(ValueBufferParameter, res);
  }

  lemma {:induction false} RemoveAllResolves(q: ProjectionMapping, b: Bindings, cs: seq<Expr>)
    requires MappingResolved(q) && forall i :: 0 <= i < |cs| ==> Shapable(cs[i])
    requires RemoveAll(q, b, cs).Ok?
    ensures var r := RemoveAll(q, b, cs).value.result;
            |r| == |cs| && forall i :: 0 <= i < |r| ==> Resolved(ValueBufferParameter, r[i])
    decreases cs
  {
    if cs != [] {
      RemoveProjectionBindingsResolves(q, b, cs[0]);
      var h := RemoveProjectionBindings(q, b, cs[0]).value;
      RemoveAllResolves(q, h.bindings, cs[1..]);
    }
  }

  /** A tree the rewrite has nothing to do in: no projection binding, no
      TryReadValue call and no MaterializationContext assignment anywhere. */
  predicate Untouched(e: Expr)
    decreases e
  {
    && !e.ProjectionBinding?
    && !(e.Call? && e.callee.TryReadValue?)
    && !IsContextAssignment(e)
    && forall i :: 0 <= i < |Children(e)| ==> Untouched(Children(e)[i])
  }

  /** Every other node is rebuilt from its visited operands, so a tree with
      nothing to rewrite comes back as it was, with the dictionary unchanged. */
  lemma {:induction false} RemoveUntouched(q: ProjectionMapping, b: Bindings, e: Expr)
    requires Untouched(e)
    ensures RemoveProjectionBindings(q, b, e) == Ok(Visited(e, b))
    decreases e, 1
  {
    match e
    case Binary(_, left, right) =>
      assert Children(e) == [left, right];
      assert Untouched(Children(e)[0]) && Untouched(Children(e)[1]);
      RemoveUntouched(q, b, left);
      RemoveUntouched(q, b, right);
    case Call(_, _, _) =>
      CallUntouched(q, b, e);
    case New(_, args) =>
      assert Children(e) == args;
      RemoveAllUntouched(q, b, args);
    case MemberAccess(t, _) =>
      assert Children(e) == [t];
      assert Untouched(Children(e)[0]);
      RemoveUntouched(q, b, t);
    case Node(_, cs) =>
      assert Children(e) == cs;
      RemoveAllUntouched(q, b, cs);
    case _ =>
  }

  /** RemoveUntouched for a call. */
  lemma {:induction false} CallUntouched(q: ProjectionMapping, b: Bindings, e: Expr)
    requires e.Call? && Untouched(e)
    ensures RemoveProjectionBindings(q, b, e) == Ok(Visited(e, b))
    decreases e, 0
  {
    if e.instance.None? {
      assert Children(e) == e.args;
      RemoveAllUntouched(q, b, e.args);
    } else {
      assert Children(e) == [e.instance.value] + e.args;
      assert Untouched(Children(e)[0]);
      RemoveUntouched(q, b, e.instance.value);
      forall i | 0 <= i < |e.args|
        ensures Untouched(e.args[i])
      {
        assert e.args[i] == Children(e)[i + 1];
      }
      RemoveAllUntouched(q, b, e.args);
    }
  }

  /** RemoveUntouched for a list of operands. */
  lemma {:induction false} RemoveAllUntouched(q: ProjectionMapping, b: Bindings, cs: seq<Expr>)
    requires forall i :: 0 <= i < |cs| ==> Untouched(cs[i])
    ensures RemoveAll(q, b, cs) == Ok(Visited(cs, b))
    decreases cs
  {
    if cs != [] {
      RemoveUntouched(q, b, cs[0]);
      RemoveAllUntouched(q, b, cs[1..]);
      assert [cs[0]] + cs[1..] == cs;
    }
  }

  /** The MaterializationContext variables assigned at positions the rewrite visits. */
  function AssignedContexts(e: Expr): set<ParameterRef>
    decreases e
  {
    match e
    case Binary(_, left, right) =>
      if IsContextAssignment(e) then
        (if right.New? && |right.args| == 2 then AssignedContexts(right.args[0]) else {}) + {left.p}
      else
        AssignedContexts(left) + AssignedContexts(right)
    case Call(m, inst, args) =>
      if m.TryReadValue? then {}
      else (if inst.Some? then AssignedContexts(inst.value) else {}) + AssignedContextsAll(args)
    case New(_, args) => AssignedContextsAll(args)
    case MemberAccess(t, _) => AssignedContexts(t)
    case Node(_, cs) => AssignedContextsAll(cs)
    case _ => {}
  }

  function AssignedContextsAll(cs: seq<Expr>): set<ParameterRef>
    decreases cs
  {
    if cs == [] then {} else AssignedContexts(cs[0]) + AssignedContextsAll(cs[1..])
  }

  /** The dictionary only grows, by exactly the context variables assigned in the
      visited tree; the entry of every other variable is left as it was. */
  lemma {:induction false} BindingsChangeOnlyAtAssignments(q: ProjectionMapping, b: Bindings, e: Expr)
    requires RemoveProjectionBindings(q, b, e).Ok?
    ensures var b' := RemoveProjectionBindings(q, b, e).value.bindings;
            && b'.Keys == b.Keys + AssignedContexts(e)
            && forall p :: p in b && p !in AssignedContexts(e) ==> b'[p] == b[p]
    decreases e, 1
  {
    match e
    case Binary(_, _, _) =>
      BinaryChangesOnlyAtAssignments(q, b, e);
    case Call(_, _, _) =>
      CallChangesOnlyAtAssignments(q, b, e);
    case New(_, args) =>
      BindingsChangeOnlyAtAssignmentsAll(q, b, args);
    case MemberAccess(t, _) =>
      BindingsChangeOnlyAtAssignments(q, b, t);
    case Node(_, cs) =>
      BindingsChangeOnlyAtAssignmentsAll(q, b, cs);
    case _ =>
  }

  /** BindingsChangeOnlyAtAssignments for a binary node. */
  lemma {:induction false} BinaryChangesOnlyAtAssignments(q: ProjectionMapping, b: Bindings, e: Expr)
    requires e.Binary? && RemoveProjectionBindings(q, b, e).Ok?
    ensures var b' := RemoveProjectionBindings(q, b, e).value.bindings;
            && b'.Keys == b.Keys + AssignedContexts(e)
            && forall p :: p in b && p !in AssignedContexts(e) ==> b'[p] == b[p]
    decreases e, 0
  {
    if IsContextAssignment(e) {
      BindingsChangeOnlyAtAssignments(q, b, e.right.args[0]);
    } else {
      BindingsChangeOnlyAtAssignments(q, b, e.left);
      var l := RemoveProjectionBindings(q, b, e.left).value;
      BindingsChangeOnlyAtAssignments(q, l.bindings, e.right);
    }
  }

  /** BindingsChangeOnlyAtAssignments for a call. */
  lemma {:induction false} CallChangesOnlyAtAssignments(q: ProjectionMapping, b: Bindings, e: Expr)
    requires e.Call? && RemoveProjectionBindings(q, b, e).Ok?
    ensures var b' := RemoveProjectionBindings(q, b, e).value.bindings;
            && b'.Keys == b.Keys + AssignedContexts(e)
            && forall p :: p in b && p !in AssignedContexts(e) ==> b'[p] == b[p]
    decreases e, 0
  {
    if e.callee.TryReadValue? {
    } else if e.instance.None? {
      BindingsChangeOnlyAtAssignmentsAll(q, b, e.args);
    } else {
      BindingsChangeOnlyAtAssignments(q, b, e.instance.value);
      var i := RemoveProjectionBindings(q, b, e.instance.value).value;
      BindingsChangeOnlyAtAssignmentsAll(q, i.bindings, e.args);
    }
  }

  lemma {:induction false} BindingsChangeOnlyAtAssignmentsAll(q: ProjectionMapping, b: Bindings, cs: seq<Expr>)
    requires RemoveAll(q, b, cs).Ok?
    ensures var b' := RemoveAll(q, b, cs).value.bindings;
            && b'.Keys == b.Keys + AssignedContextsAll(cs)
            && forall p :: p in b && p !in AssignedContextsAll(cs) ==> b'[p] == b[p]
    decreases cs
  {
    if cs != [] {
      BindingsChangeOnlyAtAssignments(q, b, cs[0]);
      var h := RemoveProjectionBindings(q, b, cs[0]).value;
      BindingsChangeOnlyAtAssignmentsAll(q, h.bindings, cs[1..]);
    }
  }

  /** The visit of two operands: the second is visited with the dictionary the
      first left. */
  lemma RemoveAllPair(q: ProjectionMapping, b: Bindings, x: Expr, y: Expr)
    requires RemoveProjectionBindings(q, b, x).Ok?
    ensures var h := RemoveProjectionBindings(q, b, x).value;
            var t := RemoveProjectionBindings(q, h.bindings, y);
            RemoveAll(q, b, [x, y]) == if t.Ok? then Ok(Visited([h.result, t.value.result], t.value.bindings)) else Err(t.error)
  {
    var cs := [x, y];
    var h := RemoveProjectionBindings(q, b, x).value;
    assert cs[1..] == [y] && cs[1..][1..] == [];
    RemoveAllStep(q, b, cs);
    RemoveAllStep(q, h.bindings, cs[1..]);
    var t := RemoveProjectionBindings(q, h.bindings, y);
    if t.Ok? {
      assert RemoveAll(q, t.value.bindings, cs[1..][1..]) == Ok(Visited([], t.value.bindings));
      assert [t.value.result] + [] == [t.value.result];
      assert [h.result] + [t.value.result] == [h.result, t.value.result];
    }
  }

  /** The context assignment `p = new MaterializationContext(<binding of m>, context)`. */
  function BindContext(p: ParameterRef, ctor: ConstructorRef, m: ProjectionMember, context: Expr): Expr {
    Binary(Assign, Parameter(p), New(ctor, [ProjectionBinding(m), context]))
  }

  lemma BindContextStep(q: ProjectionMapping, b: Bindings, p: ParameterRef, ctor: ConstructorRef, m: ProjectionMember, context: Expr)
    requires p.Type() == MaterializationContextType
    requires m in q && q[m].EntityValues?
    ensures RemoveProjectionBindings(q, b, BindContext(p, ctor, m, context))
         == Ok(Visited(EmptyBufferContext(Parameter(p), ctor, context), b[p := q[m].startIndex]))
  {
    var e := BindContext(p, ctor, m, context);
    assert IsContextAssignment(e);
    assert e.right.args[0] == ProjectionBinding(m);
    assert RemoveProjectionBindings(q, b, ProjectionBinding(m)) == Ok(Visited(q[m], b));
  }

  /** `TryReadValue<t>(p.get_ValueBuffer(), i, property)`. */
  function ReadThroughContext(t: ClrType, getter: MethodRef, p: ParameterRef, i: Int32, property: Expr): Expr {
    Call(TryReadValue(t), None, [Call(getter, Some(Parameter(p)), []), Constant(IntConstant(i)), property])
  }

  /** A read through a bound context becomes a literal read at the recorded start
      index plus the original index. */
  lemma ReadThroughContextStep(q: ProjectionMapping, b: Bindings, t: ClrType, getter: MethodRef, p: ParameterRef, i: Int32, property: Expr)
    requires p in b
    ensures RemoveProjectionBindings(q, b, ReadThroughContext(t, getter, p, i, property))
         == Ok(Visited(LiteralRead(TryReadValue(t), UncheckedAdd(b[p], i), property), b))
  {
  }

  /** In visiting order, a context assignment followed by a read through that
      context: the assignment's start index is folded into the read's literal
      index, and the context no longer carries a buffer. */
  lemma StartIndexFoldsIntoLaterRead(q: ProjectionMapping, b: Bindings, kind: string, p: ParameterRef, ctor: ConstructorRef, m: ProjectionMember, context: Expr,
                                     t: ClrType, getter: MethodRef, i: Int32, property: Expr)
    requires p.Type() == MaterializationContextType
    requires m in q && q[m].EntityValues?
    ensures RemoveProjectionBindings(q, b, Node(kind, [BindContext(p, ctor, m, context), ReadThroughContext(t, getter, p, i, property)]))
         == Ok(Visited(Node(kind, [Binary(Assign, Parameter(p), New(ctor, [Constant(EmptyValueBuffer), context])),
                                   Call(TryReadValue(t), None, [ValueBufferParameter, Constant(IntConstant(UncheckedAdd(q[m].startIndex, i))), property])]),
                       b[p := q[m].startIndex]))
  {
    var b1 := b[p := q[m].startIndex];
    BindContextStep(q, b, p, ctor, m, context);
    ReadThroughContextStep(q, b1, t, getter, p, i, property);
    RemoveAllPair(q, b, BindContext(p, ctor, m, context), ReadThroughContext(t, getter, p, i, property));
  }

  /** In visiting order, a read through a context that is only assigned
      afterwards fails: the dictionary is filled during the traversal. */
  lemma ReadBeforeBindingFails(q: ProjectionMapping, b: Bindings, kind: string, p: ParameterRef, ctor: ConstructorRef, m: ProjectionMember, context: Expr,
                               t: ClrType, getter: MethodRef, i: Int32, property: Expr)
    requires p.Type() == MaterializationContextType && p !in b
    ensures RemoveProjectionBindings(q, b, Node(kind, [ReadThroughContext(t, getter, p, i, property), BindContext(p, ctor, m, context)]))
         == Err(MaterializationContextNotBound(p))
  {
    var cs := [ReadThroughContext(t, getter, p, i, property), BindContext(p, ctor, m, context)];
    assert RemoveProjectionBindings(q, b, cs[0]) == Err(MaterializationContextNotBound(p));
  }

  /** Two assignments to the same context variable: the later one's start index
      is the one recorded. */
  lemma LaterBindingOverwrites(q: ProjectionMapping, b: Bindings, kind: string, p: ParameterRef, ctor: ConstructorRef, m1: ProjectionMember, m2: ProjectionMember, context: Expr)
    requires p.Type() == MaterializationContextType
    requires m1 in q && q[m1].EntityValues? && m2 in q && q[m2].EntityValues?
    ensures var r := RemoveProjectionBindings(q, b, Node(kind, [BindContext(p, ctor, m1, context), BindContext(p, ctor, m2, context)]));
            r.Ok? && r.value.bindings == b[p := q[m2].startIndex]
  {
    var b1 := b[p := q[m1].startIndex];
    BindContextStep(q, b, p, ctor, m1, context);
    BindContextStep(q, b1, p, ctor, m2, context);
    RemoveAllPair(q, b, BindContext(p, ctor, m1, context), BindContext(p, ctor, m2, context));
    assert b[p := q[m1].startIndex][p := q[m2].startIndex] == b[p := q[m2].startIndex];
  }
}
