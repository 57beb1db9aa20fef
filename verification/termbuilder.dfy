/**
 * The hole-filling term builder: an arena of nodes whose children are
 * handles, together with a first-in first-out queue of open holes.
 *
 * A filler term is flattened bottom-up: every boxed child gets a fresh
 * arena slot and is replaced by its handle, and the payload of the root is
 * written over the oldest open hole.
 */
module TermBuilder {
  import opened Syntax

  /** Arena contents: each handle's payload, its children given as handles. */
  type Arena = map<nat, Syntax<nat>>

  // ---------------------------------------------------------------------
  // What it means for arena slots to hold a tree, laid out as `derecurse`
  // stores it.  The proper subterms of a flattened term take exactly the
  // slots `lo` up to `hi - 1`, one each: a boxed child's own subterms come
  // first and the child itself right after them, each sibling starts right
  // after the previous one, and both sides of a split branch are flattened
  // before either is stored.
  // ---------------------------------------------------------------------

  /** Resolving the handles of `cs` in `m` gives back `t`, laid out in the slots `lo` up to `hi - 1`. */
  ghost predicate Flattens(m: Arena, lo: nat, hi: nat, cs: Syntax<nat>, t: Syntax<Node>)
    decreases t
  {
    match t
    case Pi(_, _) | Sg(_, _) | BoundaryHole(_) | CofBoundary(_) => false
    case Var(id) => cs == Var(id) && hi == lo
    case Lit(n) => cs == Lit(n) && hi == lo
    case Type => cs == Type && hi == lo
    case Hole(h) => cs == Hole(h) && hi == lo
    case Underscore => cs == Underscore && hi == lo
    case Dim => cs == Dim && hi == lo
    case Cof => cs == Cof && hi == lo
    case TopC => cs == TopC && hi == lo
    case BotC => cs == BotC && hi == lo
    case Lam(binders, body) =>
      cs.Lam? && cs.binders == binders && Represents(m, lo, cs.body, body) && hi == cs.body + 1
    case Ap(head, args) =>
      cs.Ap? && Represents(m, lo, cs.head, head) && RepresentsAll(m, cs.head + 1, hi, cs.args, args)
    case CofEq(lhs, rhs) =>
      cs.CofEq? && Represents(m, lo, cs.lhs, lhs) && Represents(m, cs.lhs + 1, cs.rhs, rhs) && hi == cs.rhs + 1
    case CofLe(lhs, rhs) =>
      cs.CofLe? && Represents(m, lo, cs.lhs, lhs) && Represents(m, cs.lhs + 1, cs.rhs, rhs) && hi == cs.rhs + 1
    case Join(phis) => cs.Join? && RepresentsAll(m, lo, hi, cs.phis, phis)
    case Meet(phis) => cs.Meet? && RepresentsAll(m, lo, hi, cs.phis, phis)
    case CofSplit(branches) => cs.CofSplit? && RepresentsPairs(m, lo, hi, cs.branches, branches)
    case HComChk(fam, src, tube) =>
      cs.HComChk? && Represents(m, lo, cs.fam, fam) && Represents(m, cs.fam + 1, cs.src, src)
      && Represents(m, cs.src + 1, cs.tube, tube) && hi == cs.tube + 1
    case HFillChk(fam, src) =>
      cs.HFillChk? && Represents(m, lo, cs.fam, fam) && Represents(m, cs.fam + 1, cs.src, src) && hi == cs.src + 1
  }

  /** The child `n` is stored at `h`, right after its own subterms, which start at `lo`. */
  ghost predicate Represents(m: Arena, lo: nat, h: nat, n: Node)
    decreases n
  {
    lo <= h && h in m && Flattens(m, lo, h, m[h], n.node)
  }

  /** The slot after a run of siblings stored from `lo` on: right after the last sibling's own slot. */
  function After(lo: nat, hs: seq<nat>): nat {
    if hs == [] then lo else hs[|hs| - 1] + 1
  }

  /**
   * The handles resolve to the children one for one, in the slots `lo` up
   * to `hi - 1`: each child's slots come right after the previous one's.
   */
  ghost predicate RepresentsAll(m: Arena, lo: nat, hi: nat, hs: seq<nat>, ns: seq<Node>)
    decreases ns
  {
    |hs| == |ns|
    && if ns == [] then hi == lo
       else
         var k := |ns| - 1;
         var mid := After(lo, hs[..k]);
         lo <= mid && RepresentsAll(m, lo, mid, hs[..k], ns[..k])
         && Represents(m, mid, hs[k], ns[k]) && hi == hs[k] + 1
  }

  /**
   * A split branch: the subterms of the left side, then those of the right
   * side, then the left payload and the right payload in two adjacent slots.
   */
  ghost predicate RepresentsPair(m: Arena, lo: nat, hp: (nat, nat), p: (Node, Node))
    decreases p
  {
    var mid := lo + Size(p.0.node);
    mid <= hp.0 && hp.1 == hp.0 + 1 && hp.0 in m && hp.1 in m
    && Flattens(m, lo, mid, m[hp.0], p.0.node) && Flattens(m, mid, hp.0, m[hp.1], p.1.node)
  }

  /**
   * A branch whose two sides were flattened in turn in `m1`, and whose
   * payloads were then stored in the next two slots, giving `m2`.
   */
  lemma PairStored(m1: Arena, m2: Arena, lo: nat, mid: nat, h: nat, cs1: Syntax<nat>, cs2: Syntax<nat>, p: (Node, Node))
    requires mid == lo + Size(p.0.node) && mid <= h && Keeps(m1, m2, lo, h)
    requires h in m2 && m2[h] == cs1 && h + 1 in m2 && m2[h + 1] == cs2
    requires Flattens(m1, lo, mid, cs1, p.0.node) && Flattens(m1, mid, h, cs2, p.1.node)
    ensures RepresentsPair(m2, lo, (h, h + 1), p)
  {
    FlattensKept(m1, m2, lo, mid, cs1, p.0.node);
    FlattensKept(m1, m2, mid, h, cs2, p.1.node);
  }

  /** The slot after a run of branches stored from `lo` on. */
  function AfterPairs(lo: nat, hps: seq<(nat, nat)>): nat {
    if hps == [] then lo else hps[|hps| - 1].1 + 1
  }

  ghost predicate RepresentsPairs(m: Arena, lo: nat, hi: nat, hps: seq<(nat, nat)>, ps: seq<(Node, Node)>)
    decreases ps
  {
    |hps| == |ps|
    && if ps == [] then hi == lo
       else
         var k := |ps| - 1;
         var mid := AfterPairs(lo, hps[..k]);
         lo <= mid && RepresentsPairs(m, lo, mid, hps[..k], ps[..k])
         && RepresentsPair(m, mid, hps[k], ps[k]) && hi == hps[k].1 + 1
  }

  /** `m2` keeps every slot of `m1` from `lo` up to `hi - 1`. */
  ghost predicate Keeps(m1: Arena, m2: Arena, lo: nat, hi: nat) {
    forall k :: k in m1 && lo <= k < hi ==> k in m2 && m2[k] == m1[k]
  }

  /**
   * From (`m1`, `n1`) to (`m2`, `n2`) only fresh slots were added: the
   * handles `n1` up to `n2`, and every earlier slot is unchanged.
   */
  ghost predicate Grown(m1: Arena, n1: nat, m2: Arena, n2: nat) {
    n1 <= n2
    && (forall k :: k in m2 <==> k in m1 || n1 <= k < n2)
    && (forall k :: k in m1 ==> m2[k] == m1[k])
  }

  /** Fresh slots added in two steps were added in one. */
  lemma GrownTrans(m1: Arena, n1: nat, m2: Arena, n2: nat, m3: Arena, n3: nat)
    requires Grown(m1, n1, m2, n2) && Grown(m2, n2, m3, n3)
    ensures Grown(m1, n1, m3, n3)
  {
  }

  /** Adding fresh slots keeps every existing one. */
  lemma GrownKeeps(m1: Arena, n1: nat, m2: Arena, n2: nat, lo: nat, hi: nat)
    requires Grown(m1, n1, m2, n2)
    ensures Keeps(m1, m2, lo, hi)
  {
  }

  /** A run of siblings ends no earlier than it starts. */
  lemma RepresentsAllOrdered(m: Arena, lo: nat, hi: nat, hs: seq<nat>, ns: seq<Node>)
    requires RepresentsAll(m, lo, hi, hs, ns)
    ensures lo <= hi
  {
  }

  /** A child stored right after a run of siblings extends the run. */
  lemma RepresentsAllSnoc(m: Arena, lo: nat, hi: nat, hs: seq<nat>, ns: seq<Node>, h: nat, n: Node)
    requires RepresentsAll(m, lo, hi, hs, ns) && Represents(m, hi, h, n) && lo <= hi
    ensures RepresentsAll(m, lo, h + 1, hs + [h], ns + [n])
  {
    assert (hs + [h])[..|hs|] == hs && (ns + [n])[..|ns|] == ns;
  }

  /** A branch stored right after a run of branches extends the run. */
  lemma RepresentsPairsSnoc(m: Arena, lo: nat, hi: nat, hps: seq<(nat, nat)>, ps: seq<(Node, Node)>, hp: (nat, nat), p: (Node, Node))
    requires RepresentsPairs(m, lo, hi, hps, ps) && RepresentsPair(m, hi, hp, p) && lo <= hi
    ensures RepresentsPairs(m, lo, hp.1 + 1, hps + [hp], ps + [p])
  {
    assert (hps + [hp])[..|hps|] == hps && (ps + [p])[..|ps|] == ps;
  }

  // ---------------------------------------------------------------------
  // A flattened tree stays put under any change that keeps its own slots
  // ---------------------------------------------------------------------

  lemma {:induction false} FlattensKept(m1: Arena, m2: Arena, lo: nat, hi: nat, cs: Syntax<nat>, t: Syntax<Node>)
    requires Keeps(m1, m2, lo, hi) && Flattens(m1, lo, hi, cs, t)
    decreases t
    ensures Flattens(m2, lo, hi, cs, t)
  {
    match t
    case Lam(_, body) => RepresentsKept(m1, m2, lo, cs.body, body);
    case Ap(head, args) =>
      RepresentsAllOrdered(m1, cs.head + 1, hi, cs.args, args);
      RepresentsKept(m1, m2, lo, cs.head, head);
      RepresentsAllKept(m1, m2, cs.head + 1, hi, cs.args, args);
    case CofEq(lhs, rhs) =>
      RepresentsKept(m1, m2, lo, cs.lhs, lhs);
      RepresentsKept(m1, m2, cs.lhs + 1, cs.rhs, rhs);
    case CofLe(lhs, rhs) =>
      RepresentsKept(m1, m2, lo, cs.lhs, lhs);
      RepresentsKept(m1, m2, cs.lhs + 1, cs.rhs, rhs);
    case Join(phis) => RepresentsAllKept(m1, m2, lo, hi, cs.phis, phis);
    case Meet(phis) => RepresentsAllKept(m1, m2, lo, hi, cs.phis, phis);
    case CofSplit(branches) => RepresentsPairsKept(m1, m2, lo, hi, cs.branches, branches);
    case HComChk(fam, src, tube) =>
      RepresentsKept(m1, m2, lo, cs.fam, fam);
      RepresentsKept(m1, m2, cs.fam + 1, cs.src, src);
      RepresentsKept(m1, m2, cs.src + 1, cs.tube, tube);
    case HFillChk(fam, src) =>
      RepresentsKept(m1, m2, lo, cs.fam, fam);
      RepresentsKept(m1, m2, cs.fam + 1, cs.src, src);
    case _ =>
  }

  lemma {:induction false} RepresentsKept(m1: Arena, m2: Arena, lo: nat, h: nat, n: Node)
    requires Keeps(m1, m2, lo, h + 1) && Represents(m1, lo, h, n)
    decreases n
    ensures Represents(m2, lo, h, n)
  {
    FlattensKept(m1, m2, lo, h, m1[h], n.node);
  }

  lemma {:induction false} RepresentsAllKept(m1: Arena, m2: Arena, lo: nat, hi: nat, hs: seq<nat>, ns: seq<Node>)
    requires Keeps(m1, m2, lo, hi) && RepresentsAll(m1, lo, hi, hs, ns)
    decreases ns
    ensures RepresentsAll(m2, lo, hi, hs, ns)
  {
    if ns != [] {
      var k := |ns| - 1;
      var mid := After(lo, hs[..k]);
      RepresentsAllKept(m1, m2, lo, mid, hs[..k], ns[..k]);
      RepresentsKept(m1, m2, mid, hs[k], ns[k]);
    }
  }

  lemma {:induction false} RepresentsPairKept(m1: Arena, m2: Arena, lo: nat, hp: (nat, nat), p: (Node, Node))
    requires Keeps(m1, m2, lo, hp.1 + 1) && RepresentsPair(m1, lo, hp, p)
    decreases p
    ensures RepresentsPair(m2, lo, hp, p)
  {
    var mid := lo + Size(p.0.node);
    FlattensKept(m1, m2, lo, mid, m1[hp.0], p.0.node);
    FlattensKept(m1, m2, mid, hp.0, m1[hp.1], p.1.node);
  }

  lemma {:induction false} RepresentsPairsKept(m1: Arena, m2: Arena, lo: nat, hi: nat, hps: seq<(nat, nat)>, ps: seq<(Node, Node)>)
    requires Keeps(m1, m2, lo, hi) && RepresentsPairs(m1, lo, hi, hps, ps)
    decreases ps
    ensures RepresentsPairs(m2, lo, hi, hps, ps)
  {
    if ps != [] {
      var k := |ps| - 1;
      var mid := AfterPairs(lo, hps[..k]);
      RepresentsPairsKept(m1, m2, lo, mid, hps[..k], ps[..k]);
      RepresentsPairKept(m1, m2, mid, hps[k], ps[k]);
    }
  }

  // ---------------------------------------------------------------------
  // The arena determines the tree: resolving handles has one answer
  // ---------------------------------------------------------------------

  lemma {:induction false} FlattensUnique(m: Arena, lo: nat, hi1: nat, hi2: nat, cs: Syntax<nat>, t1: Syntax<Node>, t2: Syntax<Node>)
    requires Flattens(m, lo, hi1, cs, t1) && Flattens(m, lo, hi2, cs, t2)
    decreases t1
    ensures t1 == t2
  {
    match t1
    case Lam(_, body) => RepresentsUnique(m, lo, cs.body, body, t2.body);
    case Ap(head, args) =>
      RepresentsUnique(m, lo, cs.head, head, t2.head);
      RepresentsAllUnique(m, cs.head + 1, hi1, hi2, cs.args, args, t2.args);
    case CofEq(lhs, rhs) =>
      RepresentsUnique(m, lo, cs.lhs, lhs, t2.lhs);
      RepresentsUnique(m, cs.lhs + 1, cs.rhs, rhs, t2.rhs);
    case CofLe(lhs, rhs) =>
      RepresentsUnique(m, lo, cs.lhs, lhs, t2.lhs);
      RepresentsUnique(m, cs.lhs + 1, cs.rhs, rhs, t2.rhs);
    case Join(phis) => RepresentsAllUnique(m, lo, hi1, hi2, cs.phis, phis, t2.phis);
    case Meet(phis) => RepresentsAllUnique(m, lo, hi1, hi2, cs.phis, phis, t2.phis);
    case CofSplit(branches) => RepresentsPairsUnique(m, lo, hi1, hi2, cs.branches, branches, t2.branches);
    case HComChk(fam, src, tube) =>
      RepresentsUnique(m, lo, cs.fam, fam, t2.fam);
      RepresentsUnique(m, cs.fam + 1, cs.src, src, t2.src);
      RepresentsUnique(m, cs.src + 1, cs.tube, tube, t2.tube);
    case HFillChk(fam, src) =>
      RepresentsUnique(m, lo, cs.fam, fam, t2.fam);
      RepresentsUnique(m, cs.fam + 1, cs.src, src, t2.src);
    case _ =>
  }

  lemma {:induction false} RepresentsUnique(m: Arena, lo: nat, h: nat, n1: Node, n2: Node)
    requires Represents(m, lo, h, n1) && Represents(m, lo, h, n2)
    decreases n1
    ensures n1 == n2
  {
    FlattensUnique(m, lo, h, h, m[h], n1.node, n2.node);
  }

  lemma {:induction false} RepresentsAllUnique(m: Arena, lo: nat, hi1: nat, hi2: nat, hs: seq<nat>, ns1: seq<Node>, ns2: seq<Node>)
    requires RepresentsAll(m, lo, hi1, hs, ns1) && RepresentsAll(m, lo, hi2, hs, ns2)
    decreases ns1
    ensures ns1 == ns2
  {
    if ns1 != [] {
      var k := |ns1| - 1;
      var mid := After(lo, hs[..k]);
      RepresentsAllUnique(m, lo, mid, mid, hs[..k], ns1[..k], ns2[..k]);
      RepresentsUnique(m, mid, hs[k], ns1[k], ns2[k]);
      assert ns1 == ns1[..k] + [ns1[k]] && ns2 == ns2[..k] + [ns2[k]];
    }
  }

  lemma {:induction false} RepresentsPairsUnique(m: Arena, lo: nat, hi1: nat, hi2: nat, hps: seq<(nat, nat)>, ps1: seq<(Node, Node)>, ps2: seq<(Node, Node)>)
    requires RepresentsPairs(m, lo, hi1, hps, ps1) && RepresentsPairs(m, lo, hi2, hps, ps2)
    decreases ps1
    ensures ps1 == ps2
  {
    if ps1 != [] {
      var k := |ps1| - 1;
      var mid := AfterPairs(lo, hps[..k]);
      RepresentsPairsUnique(m, lo, mid, mid, hps[..k], ps1[..k], ps2[..k]);
      RepresentsPairUnique(m, mid, hps[k], ps1[k], ps2[k]);
      assert ps1 == ps1[..k] + [ps1[k]] && ps2 == ps2[..k] + [ps2[k]];
    }
  }

  lemma {:induction false} RepresentsPairUnique(m: Arena, lo: nat, hp: (nat, nat), p1: (Node, Node), p2: (Node, Node))
    requires RepresentsPair(m, lo, hp, p1) && RepresentsPair(m, lo, hp, p2)
    decreases p1
    ensures p1 == p2
  {
    var mid := lo + Size(p1.0.node);
    FlattensUnique(m, lo, mid, lo + Size(p2.0.node), m[hp.0], p1.0.node, p2.0.node);
    FlattensUnique(m, mid, hp.0, hp.0, m[hp.1], p1.1.node, p2.1.node);
  }

  // ---------------------------------------------------------------------
  // The slots a flattened term uses, read back through the arena in the
  // order `derecurse` stores them: one handle per proper subterm, with no
  // gaps and no sharing.
  // ---------------------------------------------------------------------

  /** The handles `lo`, `lo + 1`, ..., `hi - 1`, in increasing order. */
  function Span(lo: nat, hi: nat): (r: seq<nat>)
    decreases hi
    ensures |r| == if lo <= hi then hi - lo else 0
  {
    if hi <= lo then [] else Span(lo, hi - 1) + [hi - 1]
  }

  /** Each handle of a span is where it should be, so no handle occurs twice. */
  lemma {:induction false} SpanAt(lo: nat, hi: nat, i: nat)
    requires lo + i < hi
    decreases hi
    ensures Span(lo, hi)[i] == lo + i
  {
    if lo + i < hi - 1 {
      SpanAt(lo, hi - 1, i);
    }
  }

  /** Two adjacent spans make one. */
  lemma {:induction false} SpanConcat(lo: nat, mid: nat, hi: nat)
    requires lo <= mid <= hi
    decreases hi
    ensures Span(lo, mid) + Span(mid, hi) == Span(lo, hi)
  {
    if mid < hi {
      SpanConcat(lo, mid, hi - 1);
      assert Span(lo, mid) + (Span(mid, hi - 1) + [hi - 1]) == (Span(lo, mid) + Span(mid, hi - 1)) + [hi - 1];
    }
  }

  /** The handles of the proper subterms of `t`, found from its payload `cs`. */
  ghost function Slots(m: Arena, cs: Syntax<nat>, t: Syntax<Node>): seq<nat>
    decreases t
  {
    match t
    case Lam(_, body) => if cs.Lam? then SlotsOf(m, cs.body, body) else []
    case Ap(head, args) => if cs.Ap? then SlotsOf(m, cs.head, head) + SlotsAll(m, cs.args, args) else []
    case CofEq(lhs, rhs) => if cs.CofEq? then SlotsOf(m, cs.lhs, lhs) + SlotsOf(m, cs.rhs, rhs) else []
    case CofLe(lhs, rhs) => if cs.CofLe? then SlotsOf(m, cs.lhs, lhs) + SlotsOf(m, cs.rhs, rhs) else []
    case Join(phis) => if cs.Join? then SlotsAll(m, cs.phis, phis) else []
    case Meet(phis) => if cs.Meet? then SlotsAll(m, cs.phis, phis) else []
    case CofSplit(branches) => if cs.CofSplit? then SlotsPairs(m, cs.branches, branches) else []
    case HComChk(fam, src, tube) =>
      if cs.HComChk? then SlotsOf(m, cs.fam, fam) + SlotsOf(m, cs.src, src) + SlotsOf(m, cs.tube, tube) else []
    case HFillChk(fam, src) => if cs.HFillChk? then SlotsOf(m, cs.fam, fam) + SlotsOf(m, cs.src, src) else []
    case _ => []
  }

  /** The handles below the child stored at `h`, then `h` itself. */
  ghost function SlotsOf(m: Arena, h: nat, n: Node): seq<nat>
    decreases n
  {
    (if h in m then Slots(m, m[h], n.node) else []) + [h]
  }

  ghost function SlotsAll(m: Arena, hs: seq<nat>, ns: seq<Node>): seq<nat>
    decreases ns
  {
    if ns == [] || |hs| != |ns| then []
    else SlotsAll(m, hs[..|ns| - 1], ns[..|ns| - 1]) + SlotsOf(m, hs[|ns| - 1], ns[|ns| - 1])
  }

  /** Both sides' subterms, then the two sides themselves. */
  ghost function SlotsPair(m: Arena, hp: (nat, nat), p: (Node, Node)): seq<nat>
    decreases p
  {
    (if hp.0 in m then Slots(m, m[hp.0], p.0.node) else [])
    + (if hp.1 in m then Slots(m, m[hp.1], p.1.node) else [])
    + [hp.0, hp.1]
  }

  ghost function SlotsPairs(m: Arena, hps: seq<(nat, nat)>, ps: seq<(Node, Node)>): seq<nat>
    decreases ps
  {
    if ps == [] || |hps| != |ps| then []
    else SlotsPairs(m, hps[..|ps| - 1], ps[..|ps| - 1]) + SlotsPair(m, hps[|ps| - 1], ps[|ps| - 1])
  }

  /** A flattened term uses each of the slots `lo` up to `hi - 1` exactly once, in order. */
  lemma {:induction false} FlattensSlots(m: Arena, lo: nat, hi: nat, cs: Syntax<nat>, t: Syntax<Node>)
    requires Flattens(m, lo, hi, cs, t)
    decreases t, 1
    ensures lo <= hi && Slots(m, cs, t) == Span(lo, hi)
  {
    match t
    case Lam(_, body) => RepresentsSlots(m, lo, cs.body, body);
    case Ap(head, args) =>
      RepresentsSlots(m, lo, cs.head, head);
      RepresentsAllSlots(m, cs.head + 1, hi, cs.args, args);
      SpanConcat(lo, cs.head + 1, hi);
    case Join(phis) => RepresentsAllSlots(m, lo, hi, cs.phis, phis);
    case Meet(phis) => RepresentsAllSlots(m, lo, hi, cs.phis, phis);
    case CofSplit(branches) => RepresentsPairsSlots(m, lo, hi, cs.branches, branches);
    case CofEq(_, _) => OperandsSlots(m, lo, hi, cs, t);
    case CofLe(_, _) => OperandsSlots(m, lo, hi, cs, t);
    case HComChk(_, _, _) => CompositionSlots(m, lo, hi, cs, t);
    case HFillChk(_, _) => OperandsSlots(m, lo, hi, cs, t);
    case _ =>
  }

  /** A composition check's family, source and tube, stored one after another. */
  lemma {:induction false} CompositionSlots(m: Arena, lo: nat, hi: nat, cs: Syntax<nat>, t: Syntax<Node>)
    requires t.HComChk? && Flattens(m, lo, hi, cs, t)
    decreases t, 0
    ensures lo <= hi && Slots(m, cs, t) == Span(lo, hi)
  {
    RepresentsSlots(m, lo, cs.fam, t.fam);
    RepresentsSlots(m, cs.fam + 1, cs.src, t.src);
    RepresentsSlots(m, cs.src + 1, cs.tube, t.tube);
    SpanConcat(lo, cs.fam + 1, cs.src + 1);
    SpanConcat(lo, cs.src + 1, hi);
  }

  /** The formers with two boxed operands, stored one after the other. */
  lemma {:induction false} OperandsSlots(m: Arena, lo: nat, hi: nat, cs: Syntax<nat>, t: Syntax<Node>)
    requires t.CofEq? || t.CofLe? || t.HFillChk?
    requires Flattens(m, lo, hi, cs, t)
    decreases t, 0
    ensures lo <= hi && Slots(m, cs, t) == Span(lo, hi)
  {
    match t
    case CofEq(lhs, rhs) =>
      RepresentsSlots(m, lo, cs.lhs, lhs);
      RepresentsSlots(m, cs.lhs + 1, cs.rhs, rhs);
      SpanConcat(lo, cs.lhs + 1, hi);
    case CofLe(lhs, rhs) =>
      RepresentsSlots(m, lo, cs.lhs, lhs);
      RepresentsSlots(m, cs.lhs + 1, cs.rhs, rhs);
      SpanConcat(lo, cs.lhs + 1, hi);
    case HFillChk(fam, src) =>
      RepresentsSlots(m, lo, cs.fam, fam);
      RepresentsSlots(m, cs.fam + 1, cs.src, src);
      SpanConcat(lo, cs.fam + 1, hi);
  }

  lemma {:induction false} RepresentsSlots(m: Arena, lo: nat, h: nat, n: Node)
    requires Represents(m, lo, h, n)
    decreases n
    ensures SlotsOf(m, h, n) == Span(lo, h + 1)
  {
    FlattensSlots(m, lo, h, m[h], n.node);
  }

  lemma {:induction false} RepresentsAllSlots(m: Arena, lo: nat, hi: nat, hs: seq<nat>, ns: seq<Node>)
    requires RepresentsAll(m, lo, hi, hs, ns)
    decreases ns
    ensures lo <= hi && SlotsAll(m, hs, ns) == Span(lo, hi)
  {
    if ns != [] {
      var k := |ns| - 1;
      var mid := After(lo, hs[..k]);
      RepresentsAllSlots(m, lo, mid, hs[..k], ns[..k]);
      RepresentsSlots(m, mid, hs[k], ns[k]);
      SpanConcat(lo, mid, hi);
    }
  }

  lemma {:induction false} RepresentsPairSlots(m: Arena, lo: nat, hp: (nat, nat), p: (Node, Node))
    requires RepresentsPair(m, lo, hp, p)
    decreases p
    ensures SlotsPair(m, hp, p) == Span(lo, hp.1 + 1)
  {
    var mid := lo + Size(p.0.node);
    FlattensSlots(m, lo, mid, m[hp.0], p.0.node);
    FlattensSlots(m, mid, hp.0, m[hp.1], p.1.node);
    SpanConcat(lo, mid, hp.0);
    SpanConcat(lo, hp.0, hp.1 + 1);
  }

  lemma {:induction false} RepresentsPairsSlots(m: Arena, lo: nat, hi: nat, hps: seq<(nat, nat)>, ps: seq<(Node, Node)>)
    requires RepresentsPairs(m, lo, hi, hps, ps)
    decreases ps
    ensures lo <= hi && SlotsPairs(m, hps, ps) == Span(lo, hi)
  {
    if ps != [] {
      var k := |ps| - 1;
      var mid := AfterPairs(lo, hps[..k]);
      assert SlotsPairs(m, hps, ps) == SlotsPairs(m, hps[..k], ps[..k]) + SlotsPair(m, hps[k], ps[k]);
      RepresentsPairsSlots(m, lo, mid, hps[..k], ps[..k]);
      RepresentsPairSlots(m, mid, hps[k], ps[k]);
      SpanConcat(lo, mid, hi);
    }
  }

  // ---------------------------------------------------------------------
  // The builder
  // ---------------------------------------------------------------------

  /** `plug` either fills the oldest hole, or finds none and stops ("No holes in term!"). */
  datatype PlugOutcome = Plugged(hole: nat) | NoHoles

  class Term {
    /** The arena: handle to payload. */
    var arena: Arena
    /** The handle the arena issues next; handles are never reused. */
    var next: nat
    /** Open holes, oldest first. */
    var holes: seq<nat>

    /** Every slot was issued; each queued handle is a distinct slot holding a hole. */
    ghost predicate Valid()
      reads this
    {
      (forall k :: k in arena ==> k < next)
      && (forall i :: 0 <= i < |holes| ==> holes[i] in arena && arena[holes[i]].Hole?)
      && (forall i, j :: 0 <= i < j < |holes| ==> holes[i] != holes[j])
    }

    /** A single anonymous, non-silent hole, queued as the only open hole. */
    constructor ()
      ensures Valid()
      ensures arena.Keys == {0} && arena[0] == Hole(HoleInfo(None, false))
      ensures holes == [0]
      ensures next == 1
    {
      arena := map[0 := Hole(HoleInfo(None, false))];
      next := 1;
      holes := [0];
    }

    /**
     * Fill the oldest open hole with `filler`, flattened; the hole's handle
     * is returned and leaves the queue.  With no open hole nothing changes.
     */
    method Plug(filler: Syntax<Node>) returns (r: PlugOutcome)
      requires Valid() && (holes != [] ==> Buildable(filler))
      modifies this
      ensures Valid()
      ensures old(holes) == [] ==> r == NoHoles && arena == old(arena) && next == old(next) && holes == old(holes)
      ensures old(holes) != [] ==> r == Plugged(old(holes)[0]) && holes == old(holes)[1..]
      ensures r.Plugged? ==>
        && next == old(next) + Size(filler)
        && (forall k :: k in arena <==> k in old(arena) || old(next) <= k < next)
        && (forall k :: k in old(arena) && k != r.hole ==> arena[k] == old(arena)[k])
        && Flattens(arena, old(next), next, arena[r.hole], filler)
        && Slots(arena, arena[r.hole], filler) == Span(old(next), next)
    {
      if holes == [] {
        return NoHoles;
      }
      var hole := holes[0];
      holes := holes[1..];
      var cs := Derecurse(filler);
      ghost var m := arena;
      arena := arena[hole := cs];
      FlattensKept(m, arena, old(next), next, cs, filler);
      FlattensSlots(arena, old(next), next, cs, filler);
      r := Plugged(hole);
    }

    /** A fresh slot holding `cs`. */
    method Insert(cs: Syntax<nat>) returns (h: nat)
      requires Valid()
      modifies this
      ensures Valid()
      ensures h == old(next) && next == old(next) + 1
      ensures arena == old(arena)[h := cs]
      ensures holes == old(holes)
      ensures Grown(old(arena), old(next), arena, next)
    {
      h := next;
      arena := arena[h := cs];
      next := next + 1;
    }

    /**
     * Flatten `filler`: each boxed child is flattened, then stored in a
     * fresh slot, and the payload of `filler` itself is returned.  Holes
     * inside the filler are copied like any other leaf and never queued.
     */
    method Derecurse(filler: Syntax<Node>) returns (cs: Syntax<nat>)
      requires Valid() && Buildable(filler)
      modifies this
      decreases filler, 1
      ensures Valid() && holes == old(holes)
      ensures next == old(next) + Size(filler)
      ensures Grown(old(arena), old(next), arena, next)
      ensures Flattens(arena, old(next), next, cs, filler)
      ensures Slots(arena, cs, filler) == Span(old(next), next)
    {
      match filler {
      case Var(id) => cs := Var(id);
      case Lit(n) => cs := Lit(n);
      case Lam(binders, body) =>
        var sref := Child(body);
        cs := Lam(binders, sref);
      case Ap(_, _) => cs := Application(filler);
      case Type => cs := Type;
      case Hole(h) => cs := Hole(h);
      case Underscore => cs := Underscore;
      case Dim => cs := Dim;
      case Cof => cs := Cof;
      case CofEq(_, _) => cs := Operands(filler);
      case CofLe(_, _) => cs := Operands(filler);
      case Join(phis) =>
        var vsref := Children(phis);
        cs := Join(vsref);
      case Meet(phis) =>
        var vsref := Children(phis);
        cs := Meet(vsref);
      case CofSplit(branches) =>
        var vsrefp := Split(filler);
        cs := CofSplit(vsrefp);
      case TopC => cs := TopC;
      case BotC => cs := BotC;
      case HComChk(_, _, _) => cs := Composition(filler);
      case HFillChk(_, _) => cs := Operands(filler);
      }
      FlattensSlots(arena, old(next), next, cs, filler);
    }

    /**
     * The formers with two boxed children: flatten and store each child in
     * field order.
     */
    method Operands(filler: Syntax<Node>) returns (cs: Syntax<nat>)
      requires Valid() && Buildable(filler)
      requires filler.CofEq? || filler.CofLe? || filler.HFillChk?
      modifies this
      decreases filler, 0
      ensures Valid() && holes == old(holes)
      ensures next == old(next) + Size(filler)
      ensures Grown(old(arena), old(next), arena, next)
      ensures Flattens(arena, old(next), next, cs, filler)
    {
      match filler {
      case CofEq(lhs, rhs) =>
        var sref1 := Child(lhs);
        ghost var m := arena;
        var sref2 := Child(rhs);
        RepresentsKept(m, arena, old(next), sref1, lhs);
        cs := CofEq(sref1, sref2);
      case CofLe(lhs, rhs) =>
        var sref1 := Child(lhs);
        ghost var m := arena;
        var sref2 := Child(rhs);
        RepresentsKept(m, arena, old(next), sref1, lhs);
        cs := CofLe(sref1, sref2);
      case HFillChk(fam, src) =>
        var sref1 := Child(fam);
        ghost var m := arena;
        var sref2 := Child(src);
        RepresentsKept(m, arena, old(next), sref1, fam);
        cs := HFillChk(sref1, sref2);
      }
    }

    /** An application: its head, then each argument in order. */
    method Application(filler: Syntax<Node>) returns (cs: Syntax<nat>)
      requires Valid() && Buildable(filler) && filler.Ap?
      modifies this
      decreases filler, 0
      ensures Valid() && holes == old(holes)
      ensures next == old(next) + Size(filler)
      ensures Grown(old(arena), old(next), arena, next)
      ensures Flattens(arena, old(next), next, cs, filler)
    {
      var sref := Child(filler.head);
      ghost var m := arena;
      var vsref := Children(filler.args);
      RepresentsKept(m, arena, old(next), sref, filler.head);
      cs := Ap(sref, vsref);
    }

    /** A homogeneous composition check: its family, source and tube, in that order. */
    method Composition(filler: Syntax<Node>) returns (cs: Syntax<nat>)
      requires Valid() && Buildable(filler) && filler.HComChk?
      modifies this
      decreases filler, 0
      ensures Valid() && holes == old(holes)
      ensures next == old(next) + Size(filler)
      ensures Grown(old(arena), old(next), arena, next)
      ensures Flattens(arena, old(next), next, cs, filler)
    {
      var sref1 := Child(filler.fam);
      ghost var m1, lo1 := arena, next;
      var sref2 := Child(filler.src);
      ghost var m2 := arena;
      var sref3 := Child(filler.tube);
      RepresentsKept(m1, arena, old(next), sref1, filler.fam);
      RepresentsKept(m2, arena, lo1, sref2, filler.src);
      cs := HComChk(sref1, sref2, sref3);
    }

    /** Flatten one boxed child and store it in a fresh slot, the last one issued. */
    method Child(n: Node) returns (sref: nat)
      requires Valid() && BuildableNode(n)
      modifies this
      decreases n
      ensures Valid() && holes == old(holes)
      ensures next == old(next) + SizeNode(n) && sref == next - 1
      ensures Grown(old(arena), old(next), arena, next)
      ensures Represents(arena, old(next), sref, n)
    {
      var cs := Derecurse(n.node);
      ghost var m := arena;
      sref := Insert(cs);
      FlattensKept(m, arena, old(next), sref, cs, n.node);
    }

    /** Store each child in turn, collecting the handles in order. */
    method Children(ns: seq<Node>) returns (vsref: seq<nat>)
      requires Valid() && BuildableNodes(ns)
      modifies this
      decreases ns
      ensures Valid() && holes == old(holes)
      ensures next == old(next) + SizeNodes(ns)
      ensures Grown(old(arena), old(next), arena, next)
      ensures RepresentsAll(arena, old(next), next, vsref, ns)
    {
      vsref := [];
      var i := 0;
      while i < |ns|
        invariant 0 <= i <= |ns|
        invariant Valid() && holes == old(holes)
        invariant next == old(next) + SizeNodes(ns[..i])
        invariant Grown(old(arena), old(next), arena, next)
        invariant RepresentsAll(arena, old(next), next, vsref, ns[..i])
      {
        ghost var m, lo := arena, next;
        var sref := Child(ns[i]);
        RepresentsAllKept(m, arena, old(next), lo, vsref, ns[..i]);
        RepresentsAllSnoc(arena, old(next), lo, vsref, ns[..i], sref, ns[i]);
        assert ns[..i + 1][..i] == ns[..i];
        assert ns[..i + 1] == ns[..i] + [ns[i]];
        vsref := vsref + [sref];
        i := i + 1;
      }
      assert ns[..i] == ns;
    }

    /**
     * The branches of a split, in turn: both sides of a branch are
     * flattened first, then stored, left before right.
     */
    method Split(filler: Syntax<Node>) returns (vsrefp: seq<(nat, nat)>)
      requires Valid() && filler.CofSplit? && Buildable(filler)
      modifies this
      decreases filler, 0
      ensures Valid() && holes == old(holes)
      ensures next == old(next) + SizePairs(filler.branches)
      ensures Grown(old(arena), old(next), arena, next)
      ensures RepresentsPairs(arena, old(next), next, vsrefp, filler.branches)
    {
      var ps := filler.branches;
      assert BuildablePairs(ps);
      vsrefp := [];
      var i := 0;
      while i < |ps|
        invariant 0 <= i <= |ps|
        invariant Valid() && holes == old(holes)
        invariant next == old(next) + SizePairs(ps[..i])
        invariant Grown(old(arena), old(next), arena, next)
        invariant RepresentsPairs(arena, old(next), next, vsrefp, ps[..i])
      {
        assert BuildablePair(ps[i]);
        ghost var m, lo := arena, next;
        var srefp := Branch(ps[i]);
        RepresentsPairsKept(m, arena, old(next), lo, vsrefp, ps[..i]);
        RepresentsPairsSnoc(arena, old(next), lo, vsrefp, ps[..i], srefp, ps[i]);
        assert ps[..i + 1][..i] == ps[..i];
        assert ps[..i + 1] == ps[..i] + [ps[i]];
        vsrefp := vsrefp + [srefp];
        i := i + 1;
      }
      assert ps[..i] == ps;
    }

    /** One branch of a split: flatten both sides, then store left and right. */
    method Branch(p: (Node, Node)) returns (srefp: (nat, nat))
      requires Valid() && BuildablePair(p)
      modifies this
      decreases p, 1
      ensures Valid() && holes == old(holes)
      ensures next == old(next) + SizePair(p)
      ensures Grown(old(arena), old(next), arena, next)
      ensures srefp == (next - 2, next - 1)
      ensures RepresentsPair(arena, old(next), srefp, p)
    {
      var cs1, cs2 := Sides(p);
      ghost var m, mid, lo := arena, old(next) + Size(p.0.node), next;
      var sref1 := Insert(cs1);
      ghost var m1 := arena;
      var sref2 := Insert(cs2);
      GrownTrans(m, lo, m1, lo + 1, arena, next);
      GrownKeeps(m, lo, arena, next, old(next), lo);
      PairStored(m, arena, old(next), mid, sref1, cs1, cs2, p);
      srefp := (sref1, sref2);
    }

    /** Both sides of a branch flattened in turn, the left side's subterms first; nothing is stored for the sides themselves. */
    method Sides(p: (Node, Node)) returns (cs1: Syntax<nat>, cs2: Syntax<nat>)
      requires Valid() && BuildablePair(p)
      modifies this
      decreases p, 0
      ensures Valid() && holes == old(holes)
      ensures next == old(next) + Size(p.0.node) + Size(p.1.node)
      ensures Grown(old(arena), old(next), arena, next)
      ensures Flattens(arena, old(next), old(next) + Size(p.0.node), cs1, p.0.node)
      ensures Flattens(arena, old(next) + Size(p.0.node), next, cs2, p.1.node)
    {
      cs1 := Derecurse(p.0.node);
      ghost var m := arena;
      cs2 := Derecurse(p.1.node);
      FlattensKept(m, arena, old(next), old(next) + Size(p.0.node), cs1, p.0.node);
    }
  }

  /**
   * A fresh term plugged once holds the filler under the first handle, its
   * proper subterms in the handles 1 up to `Size(first)`, one each, and
   * resolves to nothing else; a second plug then finds no open hole.
   */
  method PlugTwice(first: Syntax<Node>, second: Syntax<Node>) returns (r1: PlugOutcome, r2: PlugOutcome, arena: Arena)
    requires Buildable(first)
    ensures r1 == Plugged(0) && r2 == NoHoles
    ensures forall k :: k in arena <==> 0 <= k < 1 + Size(first)
    ensures 0 in arena && Flattens(arena, 1, 1 + Size(first), arena[0], first)
    ensures 0 in arena && Slots(arena, arena[0], first) == Span(1, 1 + Size(first))
    ensures forall t, hi :: Flattens(arena, 1, hi, arena[0], t) ==> t == first
  {
    var term := new Term();
    ghost var m0 := term.arena;
    r1 := term.Plug(first);
    forall k: nat
      ensures k in term.arena <==> k < 1 + Size(first)
    {
      assert k in m0 <==> k in m0.Keys;
    }
    r2 := term.Plug(second);
    arena := term.arena;
    forall t, hi | Flattens(arena, 1, hi, arena[0], t)
      ensures t == first
    {
      FlattensUnique(arena, 1, hi, 1 + Size(first), arena[0], t, first);
    }
  }
}
