/** NavigationPropertyUnbindingVisitor: replaces the navigation bindings and
    custom roots of one root parameter by plain property-access chains from that
    parameter, and hands navigation expansions and includes to the reducing pass. */
module NavigationPropertyUnbinding {
  import opened ClrTypes

  /** A ParameterExpression. Parameters are compared by reference in the source;
      here a parameter is identified by its id (distinct parameters, even of the
      same name and type, have distinct ids). Kept apart from the in-memory
      shaper's ParameterRef, which also names the two parameters its compiler
      creates; this visitor only ever sees declared parameters. */
  datatype ParameterRef = ParameterRef(id: nat, ty: ClrType)

  /** The part of a NavigationTreeNode the visitor reads: the property path from
      the root to the bound value. */
  datatype NavigationTreeNode = NavigationTreeNode(toMapping: seq<string>)

  datatype Expr =
    | Parameter(p: ParameterRef)
    | MemberAccess(target: Expr, member: string, ty: ClrType)
    | Convert(operand: Expr, ty: ClrType)
    | NavigationBinding(rootParameter: ParameterRef, navigationTreeNode: NavigationTreeNode, ty: ClrType)
    | CustomRoot(rootParameter: ParameterRef, mapping: seq<string>, ty: ClrType)
    | NavigationExpansionRoot(id: nat, ty: ClrType)
    | NavigationExpansion(source: Expr, ty: ClrType)
    | Include(entityExpression: Expr, navigationExpression: Expr, ty: ClrType)
    /** Any other node, with its operands in visiting order. */
    | Node(kind: string, children: seq<Expr>, ty: ClrType)
  {
    /** Expression.Type. */
    function Type(): ClrType {
      match this
      case Parameter(p) => p.ty
      case MemberAccess(_, _, ty) => ty
      case Convert(_, ty) => ty
      case NavigationBinding(_, _, ty) => ty
      case CustomRoot(_, _, ty) => ty
      case NavigationExpansionRoot(_, ty) => ty
      case NavigationExpansion(_, ty) => ty
      case Include(_, _, ty) => ty
      case Node(_, _, ty) => ty
    }
  }

  /** The code the visitor calls but which is not part of this model: the type of
      a property of a type, NavigationExpansionRootExpression.Unwrap, and
      NavigationExpansionReducingVisitor.Visit. */
  datatype Collaborators = Collaborators(
    memberType: (ClrType, string) -> ClrType,
    unwrap: Expr -> Expr,
    reduce: Expr -> Expr)

  /** BuildPropertyAccess: one property access per path element, left to right. */
  function BuildPropertyAccess(c: Collaborators, root: Expr, path: seq<string>): Expr
    decreases |path|
  {
    if path == [] then root
    else
      var inner := BuildPropertyAccess(c, root, path[..|path| - 1]);
      MemberAccess(inner, path[|path| - 1], c.memberType(inner.Type(), path[|path| - 1]))
  }

  /** The type reached by following `path` from `t`. */
  function PathType(c: Collaborators, t: ClrType, path: seq<string>): ClrType
    decreases |path|
  {
    if path == [] then t
    else c.memberType(PathType(c, t, path[..|path| - 1]), path[|path| - 1])
  }

  /** The innermost target of a chain of property accesses. */
  function AccessRoot(e: Expr): Expr {
    if e.MemberAccess? then AccessRoot(e.target) else e
  }

  /** The property names of a chain of property accesses, outermost last. */
  function AccessPath(e: Expr): seq<string> {
    if e.MemberAccess? then AccessPath(e.target) + [e.member] else []
  }

  /** The replacement of a matching node: the chain, converted to the node's
      type when its own type differs. */
  function ConvertIfNeeded(result: Expr, ty: ClrType): Expr {
    if result.Type() != ty then Convert(result, ty) else result
  }

  /** NavigationPropertyUnbindingVisitor.Visit for root parameter `root`. */
  function Unbind(root: ParameterRef, c: Collaborators, e: Expr): (r: Expr)
    ensures !(e.NavigationExpansionRoot? || e.NavigationExpansion? || e.Include?) ==> r.Type() == e.Type()
    decreases e
  {
    match e
    case NavigationBinding(rp, node, ty) =>
      if rp == root then ConvertIfNeeded(BuildPropertyAccess(c, Parameter(rp), node.toMapping), ty) else e
    case CustomRoot(rp, mapping, ty) =>
      if rp == root then ConvertIfNeeded(BuildPropertyAccess(c, Parameter(root), mapping), ty) else e
    case NavigationExpansionRoot(_, _) => c.reduce(c.unwrap(e))
    case NavigationExpansion(_, _) => c.reduce(e)
    case Include(_, _, _) => c.reduce(e)
    case MemberAccess(t, member, ty) => MemberAccess(Unbind(root, c, t), member, ty)
    case Convert(operand, ty) => Convert(Unbind(root, c, operand), ty)
    case Node(kind, cs, ty) => Node(kind, seq(|cs|, i requires 0 <= i < |cs| => Unbind(root, c, cs[i])), ty)
    case Parameter(_) => e
  }

  // ---------------------------------------------------------------------------
  // Properties
  // ---------------------------------------------------------------------------

  /** The chain BuildPropertyAccess builds starts at `root`, follows exactly
      `path`, and has the type `path` leads to. */
  lemma {:induction false} BuildPropertyAccessRoundTrip(c: Collaborators, root: Expr, path: seq<string>)
    requires !root.MemberAccess?
    ensures AccessRoot(BuildPropertyAccess(c, root, path)) == root
    ensures AccessPath(BuildPropertyAccess(c, root, path)) == path
    ensures BuildPropertyAccess(c, root, path).Type() == PathType(c, root.Type(), path)
    ensures path != [] <==> BuildPropertyAccess(c, root, path).MemberAccess?
    decreases |path|
  {
    if path != [] {
      var prefix := path[..|path| - 1];
      BuildPropertyAccessRoundTrip(c, root, prefix);
      assert prefix + [path[|path| - 1]] == path;
    }
  }

  /** A matching navigation binding becomes the access chain from the root
      parameter along the node's mapping, converted exactly when the chain's type
      differs from the binding's; either way the node's type is kept. */
  lemma NavigationBindingUnbound(root: ParameterRef, c: Collaborators, node: NavigationTreeNode, ty: ClrType)
    ensures var r := Unbind(root, c, NavigationBinding(root, node, ty));
            var chain := if r.Convert? then r.operand else r;
            && r.Type() == ty
            && AccessRoot(chain) == Parameter(root)
            && AccessPath(chain) == node.toMapping
            && (r.Convert? <==> PathType(c, root.ty, node.toMapping) != ty)
  {
    BuildPropertyAccessRoundTrip(c, Parameter(root), node.toMapping);
  }

  /** A matching custom root becomes the access chain from the root parameter
      along the node's own mapping, under the same conversion rule. */
  lemma CustomRootUnbound(root: ParameterRef, c: Collaborators, mapping: seq<string>, ty: ClrType)
    ensures var r := Unbind(root, c, CustomRoot(root, mapping, ty));
            var chain := if r.Convert? then r.operand else r;
            && r.Type() == ty
            && AccessRoot(chain) == Parameter(root)
            && AccessPath(chain) == mapping
            && (r.Convert? <==> PathType(c, root.ty, mapping) != ty)
  {
    BuildPropertyAccessRoundTrip(c, Parameter(root), mapping);
  }

  /** Expansion roots, expansions and includes are handed to the reducing pass
      (an expansion root after one Unwrap), whole: the same result whatever the
      root parameter and whatever bindings they contain. */
  lemma ExpansionsHandedToReducer(root: ParameterRef, other: ParameterRef, c: Collaborators, e: Expr)
    requires e.NavigationExpansionRoot? || e.NavigationExpansion? || e.Include?
    ensures Unbind(root, c, e) == Unbind(other, c, e)
    ensures Unbind(root, c, e) == if e.NavigationExpansionRoot? then c.reduce(c.unwrap(e)) else c.reduce(e)
  {
  }

  /** Collaborators that keep the type of what they return. */
  ghost predicate TypePreserving(c: Collaborators) {
    && (forall x :: c.unwrap(x).Type() == x.Type())
    && (forall x :: c.reduce(x).Type() == x.Type())
  }

  /** The rewrite keeps every node's type (given that the reducing pass and Unwrap
      do). */
  lemma {:induction false} UnbindPreservesType(root: ParameterRef, c: Collaborators, e: Expr)
    requires TypePreserving(c)
    ensures Unbind(root, c, e).Type() == e.Type()
  {
    match e
    case NavigationExpansionRoot(_, _) =>
      assert c.reduce(c.unwrap(e)).Type() == c.unwrap(e).Type();
    case _ =>
  }

  /** No node this pass rewrites is left: no binding or custom root of `root`, no
      expansion root, expansion or include. */
  predicate Plain(root: ParameterRef, e: Expr)
    decreases e
  {
    match e
    case NavigationBinding(rp, _, _) => rp != root
    case CustomRoot(rp, _, _) => rp != root
    case NavigationExpansionRoot(_, _) => false
    case NavigationExpansion(_, _) => false
    case Include(_, _, _) => false
    case MemberAccess(t, _, _) => Plain(root, t)
    case Convert(operand, _) => Plain(root, operand)
    case Node(_, cs, _) => forall i :: 0 <= i < |cs| ==> Plain(root, cs[i])
    case Parameter(_) => true
  }

  /** A reducing pass that leaves nothing this pass rewrites. */
  ghost predicate ReducesToPlain(root: ParameterRef, c: Collaborators) {
    forall x :: Plain(root, c.reduce(x))
  }

  /** Every access chain is plain. */
  lemma {:induction false} BuildPropertyAccessPlain(root: ParameterRef, c: Collaborators, from: Expr, path: seq<string>)
    requires Plain(root, from)
    ensures Plain(root, BuildPropertyAccess(c, from, path))
    decreases |path|
  {
    if path != [] {
      BuildPropertyAccessPlain(root, c, from, path[..|path| - 1]);
    }
  }

  /** Normal form: after the rewrite no binding or custom root of the root
      parameter is left, and no expansion or include either, given a reducing
      pass that removes them from what it is handed. */
  lemma {:induction false} UnbindIsPlain(root: ParameterRef, c: Collaborators, e: Expr)
    requires ReducesToPlain(root, c)
    ensures Plain(root, Unbind(root, c, e))
    decreases e
  {
    match e
    case NavigationBinding(rp, node, ty) =>
      if rp == root {
        BuildPropertyAccessPlain(root, c, Parameter(rp), node.toMapping);
      }
    case CustomRoot(rp, mapping, ty) =>
      if rp == root {
        BuildPropertyAccessPlain(root, c, Parameter(root), mapping);
      }
    case NavigationExpansionRoot(_, _) =>
      assert Plain(root, c.reduce(c.unwrap(e)));
    case NavigationExpansion(_, _) =>
      assert Plain(root, c.reduce(e));
    case Include(_, _, _) =>
      assert Plain(root, c.reduce(e));
    case MemberAccess(t, _, _) =>
      UnbindIsPlain(root, c, t);
    case Convert(operand, _) =>
      UnbindIsPlain(root, c, operand);
    case Node(kind, cs, ty) =>
      forall i | 0 <= i < |cs|
        ensures Plain(root, Unbind(root, c, e).children[i])
      {
        UnbindIsPlain(root, c, cs[i]);
      }
    case Parameter(_) =>
  }

  /** Everything else recurses structurally with no change: on a plain tree
      (bindings of other roots included) the rewrite is the identity. */
  lemma {:induction false} UnbindPlainIsIdentity(root: ParameterRef, c: Collaborators, e: Expr)
    requires Plain(root, e)
    ensures Unbind(root, c, e) == e
    decreases e
  {
    match e
    case MemberAccess(t, _, _) =>
      UnbindPlainIsIdentity(root, c, t);
    case Convert(operand, _) =>
      UnbindPlainIsIdentity(root, c, operand);
    case Node(kind, cs, ty) =>
      forall i | 0 <= i < |cs|
        ensures Unbind(root, c, cs[i]) == cs[i]
      {
        UnbindPlainIsIdentity(root, c, cs[i]);
      }
      assert Unbind(root, c, e).children == cs;
    case _ =>
  }

  /** A replacement is not visited again, and visiting the result again changes
      nothing, given a reducing pass that leaves plain trees. */
  lemma UnbindIdempotent(root: ParameterRef, c: Collaborators, e: Expr)
    requires ReducesToPlain(root, c)
    ensures Unbind(root, c, Unbind(root, c, e)) == Unbind(root, c, e)
  {
    UnbindIsPlain(root, c, e);
    UnbindPlainIsIdentity(root, c, Unbind(root, c, e));
  }
}
