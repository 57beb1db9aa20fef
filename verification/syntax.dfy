/**
 * The closed vocabulary of term formers exchanged with the cooltt proof assistant:
 * identifiers, holes, binding cells and the `ConcreteSyntax` tagged union.
 *
 * `Syntax<R>` is generic over the type of a child position.  Instantiated
 * with `Node` it is the self-owning recursive term (each child boxed inside
 * a `Node` record); instantiated with `nat` it is an arena payload whose
 * children are handles into the arena.
 */
module Syntax {

  /** An unsigned 32-bit integer, the payload of a literal. */
  type u32 = n: int | 0 <= n < 0x1_0000_0000

  datatype Option<+T> = None | Some(value: T) {
    predicate IsFailure() { None? }

    function PropagateFailure<U>(): Option<U>
      requires None?
    {
      None
    }

    function Extract(): T
      requires Some?
    {
      value
    }
  }

  /** Identifiers are values: anonymous, a user path of segments, or a machine name. */
  datatype Ident = Anon | User(path: seq<string>) | Machine(name: string)

  /** An unfilled position, optionally named; `silent` hides it from some displays. */
  datatype Hole = HoleInfo(name: Option<string>, silent: bool)

  /** A telescope cell: the names it binds and their type. */
  datatype Cell<R> = Cell(names: seq<Ident>, ty: R)

  /** The term formers, in declaration order. */
  datatype Syntax<R> =
    | Var(id: Ident)
    | Lit(n: u32)
    | Pi(cells: seq<Cell<R>>, body: R)
    | Lam(binders: seq<Ident>, body: R)
    | Ap(head: R, args: seq<R>)
    | Sg(cells: seq<Cell<R>>, body: R)
    | Type
    | Hole(hole: Hole)
    | BoundaryHole(boundary: Option<R>)
    | Underscore
    | Dim
    | Cof
    | CofEq(lhs: R, rhs: R)
    | CofLe(lhs: R, rhs: R)
    | Join(phis: seq<R>)
    | Meet(phis: seq<R>)
    | CofBoundary(phi: R)
    | CofSplit(branches: seq<(R, R)>)
    | TopC
    | BotC
    | HComChk(fam: R, src: R, tube: R)
    | HFillChk(fam: R, src: R)

  /** The self-owning recursive term: a record boxing one syntax node. */
  datatype Node = Node(node: Syntax<Node>)

  /** Position of the former in the declaration of `Syntax`. */
  function VariantIndex<R>(t: Syntax<R>): (i: nat)
    ensures i < 22
  {
    match t
    case Var(_) => 0
    case Lit(_) => 1
    case Pi(_, _) => 2
    case Lam(_, _) => 3
    case Ap(_, _) => 4
    case Sg(_, _) => 5
    case Type => 6
    case Hole(_) => 7
    case BoundaryHole(_) => 8
    case Underscore => 9
    case Dim => 10
    case Cof => 11
    case CofEq(_, _) => 12
    case CofLe(_, _) => 13
    case Join(_) => 14
    case Meet(_) => 15
    case CofBoundary(_) => 16
    case CofSplit(_) => 17
    case TopC => 18
    case BotC => 19
    case HComChk(_, _, _) => 20
    case HFillChk(_, _) => 21
  }

  /** Number of fields the former declares. */
  function Arity<R>(t: Syntax<R>): nat {
    match t
    case Type | Underscore | Dim | Cof | TopC | BotC => 0
    case Var(_) | Lit(_) | Hole(_) | BoundaryHole(_) | Join(_) | Meet(_) | CofBoundary(_) | CofSplit(_) => 1
    case Pi(_, _) | Lam(_, _) | Ap(_, _) | Sg(_, _) | CofEq(_, _) | CofLe(_, _) | HFillChk(_, _) => 2
    case HComChk(_, _, _) => 3
  }

  /**
   * The unit variants of the enum, listed by name.  This is kept apart from
   * `Arity` on purpose: it is an independent reading of the declaration,
   * and `CodecLaws.EncodeNullary` proves the two agree.
   */
  predicate IsNullary<R>(t: Syntax<R>) {
    t.Type? || t.Underscore? || t.Dim? || t.Cof? || t.TopC? || t.BotC?
  }

  // ---------------------------------------------------------------------
  // Proper subterms of a recursive term.  Every boxed child counts once,
  // including the type of a cell and the optional child of a boundary hole.
  // ---------------------------------------------------------------------

  /** Number of proper subterms (boxed children, transitively) of `t`. */
  function Size(t: Syntax<Node>): nat
    decreases t
  {
    match t
    case Var(_) | Lit(_) | Type | Hole(_) | Underscore | Dim | Cof | TopC | BotC => 0
    case Pi(cells, body) => SizeCells(cells) + SizeNode(body)
    case Lam(_, body) => SizeNode(body)
    case Ap(head, args) => SizeNode(head) + SizeNodes(args)
    case Sg(cells, body) => SizeCells(cells) + SizeNode(body)
    case BoundaryHole(boundary) => SizeOptNode(boundary)
    case CofEq(lhs, rhs) => SizeNode(lhs) + SizeNode(rhs)
    case CofLe(lhs, rhs) => SizeNode(lhs) + SizeNode(rhs)
    case Join(phis) => SizeNodes(phis)
    case Meet(phis) => SizeNodes(phis)
    case CofBoundary(phi) => SizeNode(phi)
    case CofSplit(branches) => SizePairs(branches)
    case HComChk(fam, src, tube) => SizeNode(fam) + SizeNode(src) + SizeNode(tube)
    case HFillChk(fam, src) => SizeNode(fam) + SizeNode(src)
  }

  /** A boxed child together with its own proper subterms. */
  function SizeNode(n: Node): nat
    decreases n
  {
    1 + Size(n.node)
  }

  /** Summed from the back, so that a prefix grows by its last element. */
  function SizeNodes(ns: seq<Node>): nat
    decreases ns
  {
    if ns == [] then 0 else SizeNodes(ns[..|ns| - 1]) + SizeNode(ns[|ns| - 1])
  }

  function SizePair(p: (Node, Node)): nat
    decreases p
  {
    SizeNode(p.0) + SizeNode(p.1)
  }

  function SizePairs(ps: seq<(Node, Node)>): nat
    decreases ps
  {
    if ps == [] then 0 else SizePairs(ps[..|ps| - 1]) + SizePair(ps[|ps| - 1])
  }

  function SizeCell(c: Cell<Node>): nat
    decreases c
  {
    SizeNode(c.ty)
  }

  function SizeCells(cs: seq<Cell<Node>>): nat
    decreases cs
  {
    if cs == [] then 0 else SizeCells(cs[..|cs| - 1]) + SizeCell(cs[|cs| - 1])
  }

  function SizeOptNode(o: Option<Node>): nat
    decreases o
  {
    match o
    case None => 0
    case Some(n) => SizeNode(n)
  }

  // ---------------------------------------------------------------------
  // The formers the term builder knows how to flatten.  It has no arm for
  // `Pi`, `Sg`, `BoundaryHole` or `CofBoundary`.
  // ---------------------------------------------------------------------

  /** `t` and all its subterms use only formers the builder flattens. */
  predicate Buildable(t: Syntax<Node>)
    decreases t
  {
    match t
    case Pi(_, _) | Sg(_, _) | BoundaryHole(_) | CofBoundary(_) => false
    case Var(_) | Lit(_) | Type | Hole(_) | Underscore | Dim | Cof | TopC | BotC => true
    case Lam(_, body) => BuildableNode(body)
    case Ap(head, args) => BuildableNode(head) && BuildableNodes(args)
    case CofEq(lhs, rhs) => BuildableNode(lhs) && BuildableNode(rhs)
    case CofLe(lhs, rhs) => BuildableNode(lhs) && BuildableNode(rhs)
    case Join(phis) => BuildableNodes(phis)
    case Meet(phis) => BuildableNodes(phis)
    case CofSplit(branches) => BuildablePairs(branches)
    case HComChk(fam, src, tube) => BuildableNode(fam) && BuildableNode(src) && BuildableNode(tube)
    case HFillChk(fam, src) => BuildableNode(fam) && BuildableNode(src)
  }

  predicate BuildableNode(n: Node)
    decreases n
  {
    Buildable(n.node)
  }

  predicate BuildableNodes(ns: seq<Node>)
    decreases ns
  {
    forall i :: 0 <= i < |ns| ==> BuildableNode(ns[i])
  }

  predicate BuildablePair(p: (Node, Node))
    decreases p
  {
    BuildableNode(p.0) && BuildableNode(p.1)
  }

  predicate BuildablePairs(ps: seq<(Node, Node)>)
    decreases ps
  {
    forall i :: 0 <= i < |ps| ==> BuildablePair(ps[i])
  }
}
