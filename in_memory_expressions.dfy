/** The expression vocabulary of the in-memory provider's shaper: the nodes the
    projection-binding-removing rewrite and the marker replacement inspect,
    plus a generic node for everything they only recurse through. */
module InMemoryExpressions {
  import opened Wrappers
  import opened ClrInt
  import opened ClrTypes

  /** A ParameterExpression. Parameters are compared by reference in the source;
      here a declared parameter is identified by its id and type, and the two
      parameters the compiler creates itself are distinct constructors. */
  datatype ParameterRef =
    | Declared(id: nat, ty: ClrType)
    | EnumeratorParameter
    | HasNextParameter
  {
    function Type(): ClrType {
      match this
      case Declared(_, ty) => ty
      case EnumeratorParameter => ClrType("IEnumerator<ValueBuffer>")
      case HasNextParameter => ClrType("Boolean&")
    }
  }

  /** A projection member: a path naming one slot of the query's output shape. */
  datatype ProjectionMember = ProjectionMember(path: seq<string>)

  datatype ConstantValue = IntConstant(n: Int32) | EmptyValueBuffer | OtherConstant(id: nat)

  datatype BinaryOp = Assign | OtherBinary(name: string)

  /** The method of a call. `TryReadValue` stands for every instantiation of the
      generic method definition EntityMaterializerSource.TryReadValueMethod. */
  datatype MethodRef = TryReadValue(valueType: ClrType) | MoveNext | OtherMethod(name: string)

  datatype ConstructorRef = ConstructorRef(declaringType: ClrType, id: nat)

  datatype Expr =
    | Parameter(p: ParameterRef)
    | Constant(value: ConstantValue)
    /** InMemoryQueryExpression.ValueBufferParameter */
    | ValueBufferParameter
    /** ShapedQueryCompilingExpressionVisitor.MoveNextMarker */
    | MoveNextMarker
    | ProjectionBinding(member: ProjectionMember)
    | EntityValues(startIndex: Int32)
    | Binary(op: BinaryOp, left: Expr, right: Expr)
    | New(ctor: ConstructorRef, args: seq<Expr>)
    | Call(callee: MethodRef, instance: Option<Expr>, args: seq<Expr>)
    | MemberAccess(target: Expr, memberName: string)
    /** Any other node (block, conditional, lambda, ...), with its operands in visiting order. */
    | Node(kind: string, children: seq<Expr>)

  /** InMemoryQueryExpression's projection mapping, read by GetProjectionExpression. */
  type ProjectionMapping = map<ProjectionMember, Expr>

  /** The visitor's dictionary from MaterializationContext variables to entity start indexes. */
  type Bindings = map<ParameterRef, Int32>

  /** The program errors the rewrite raises (exceptions in the source). */
  datatype CompileError =
    | InvalidCast(expected: string)
    | ArgumentCountMismatch
    | ProjectionMemberNotFound(member: ProjectionMember)
    | MaterializationContextNotBound(p: ParameterRef)
    | NullDictionaryKey

  /** An assignment to a variable of type MaterializationContext: the node shape
      the rewrite treats specially in VisitBinary. */
  predicate IsContextAssignment(e: Expr) {
    e.Binary? && e.op == Assign && e.left.Parameter? && e.left.p.Type() == MaterializationContextType
  }

  /** The operands of a node, in the base visitor's visiting order (a call's
      instance before its arguments). */
  function Children(e: Expr): (cs: seq<Expr>)
    ensures forall i :: 0 <= i < |cs| ==> cs[i] < e
  {
    match e
    case Binary(_, l, r) => [l, r]
    case New(_, args) => args
    case Call(_, inst, args) =>
      if inst.Some? then
        assert forall i :: 0 <= i < |args| ==> args[i] < e;
        [inst.value] + args
      else args
    case MemberAccess(t, _) => [t]
    case Node(_, cs) => cs
    case _ => []
  }

  /** `e` with its operands replaced by `cs`, everything else kept. */
  function Rebuild(e: Expr, cs: seq<Expr>): (r: Expr)
    requires |cs| == |Children(e)|
    ensures Children(r) == cs
    ensures r.Call? == e.Call? && r.ProjectionBinding? == e.ProjectionBinding?
    ensures e.Call? ==> r.callee == e.callee && r.instance.Some? == e.instance.Some?
    ensures e.Call? ==> r.args == if e.instance.Some? then cs[1..] else cs
    ensures |Children(e)| == 0 ==> r == e
  {
    match e
    case Binary(op, _, _) => Binary(op, cs[0], cs[1])
    case New(ctor, _) => New(ctor, cs)
    case Call(m, inst, _) =>
      if inst.Some? then
        assert [cs[0]] + cs[1..] == cs;
        Call(m, Some(cs[0]), cs[1..])
      else Call(m, None, cs)
    case MemberAccess(_, name) => MemberAccess(cs[0], name)
    case Node(kind, _) => Node(kind, cs)
    case _ => e
  }

  /** Rebuilding a node from its own operands gives the node back. */
  lemma RebuildChildren(e: Expr)
    ensures Rebuild(e, Children(e)) == e
  {
    if e.Call? && e.instance.Some? {
      assert Children(e)[1..] == e.args;
    }
  }

  /** `x` occurs somewhere in `e` (including `e` itself). */
  predicate Occurs(x: Expr, e: Expr)
    decreases e
  {
    x == e || exists i :: 0 <= i < |Children(e)| && Occurs(x, Children(e)[i])
  }

  /** A TryReadValue call that reads buffer `buf` at a literal column index. */
  predicate IsLiteralRead(buf: Expr, e: Expr) {
    e.Call? && e.callee.TryReadValue? && |e.args| == 3 && e.args[0] == buf
    && e.args[1].Constant? && e.args[1].value.IntConstant?
  }

  /** The normal form the rewrite produces: no projection binding is left, and
      every TryReadValue call reads `buf` at a literal column index. */
  predicate Resolved(buf: Expr, e: Expr)
    decreases e
  {
    && !e.ProjectionBinding?
    && (e.Call? && e.callee.TryReadValue? ==> IsLiteralRead(buf, e))
    && forall i :: 0 <= i < |Children(e)| ==> Resolved(buf, Children(e)[i])
  }

  /** A node is in normal form when its operands are, it is no projection
      binding, and it is a literal read if it is a TryReadValue call. */
  lemma ResolvedFromChildren(buf: Expr, e: Expr)
    requires !e.ProjectionBinding? && (e.Call? && e.callee.TryReadValue? ==> IsLiteralRead(buf, e))
    requires forall i :: 0 <= i < |Children(e)| ==> Resolved(buf, Children(e)[i])
    ensures Resolved(buf, e)
  {
  }

  /** The operands the rewrite copies without visiting (the second constructor
      argument of a context assignment, the third argument of TryReadValue) are
      already in normal form. Every other operand may hold anything. */
  predicate Shapable(e: Expr)
    decreases e
  {
    match e
    case Binary(op, l, r) =>
      if IsContextAssignment(e) then
        r.New? && |r.args| == 2 ==> Shapable(r.args[0]) && Resolved(ValueBufferParameter, r.args[1])
      else
        Shapable(l) && Shapable(r)
    case New(_, args) => forall i :: 0 <= i < |args| ==> Shapable(args[i])
    case Call(m, inst, args) =>
      if m.TryReadValue? then
        |args| == 3 ==> Resolved(ValueBufferParameter, args[2])
      else
        (inst.Some? ==> Shapable(inst.value)) && forall i :: 0 <= i < |args| ==> Shapable(args[i])
    case MemberAccess(t, _) => Shapable(t)
    case Node(_, cs) => forall i :: 0 <= i < |cs| ==> Shapable(cs[i])
    case _ => true
  }

  /** Every expression the projection mapping can hand out is in normal form. */
  predicate MappingResolved(q: ProjectionMapping) {
    forall m :: m in q ==> Resolved(ValueBufferParameter, q[m])
  }
}
