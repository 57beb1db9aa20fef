/**
 * The tagged-array wire encoding of identifiers and terms
 * (the hand-written `Serialize` impls of `Ident` and `ConcreteSyntax`).
 *
 * A term becomes an array whose first element is the former's tag string,
 * followed by its fields in declaration order.  Derived encodings are used
 * below that level: a boxed child `Node` is the record `{"node": ...}`, a
 * `Cell` the record `{"names": [...], "ty": ...}`, a `Hole` the record
 * `{"name": null | string, "silent": bool}`, an option `null` or its value,
 * a pair a two-element array and a vector an array.
 *
 * `Decode` is the tag-dispatching inverse: it exists to show that the
 * encoding loses nothing, so that the external peer can recover every term.
 */
module Codec {
  import opened Syntax
  import opened Json

  /** The tag string of a former: its name, exactly as declared. */
  function Tag<R>(t: Syntax<R>): string {
    match t
    case Var(_) => "Var"
    case Lit(_) => "Lit"
    case Pi(_, _) => "Pi"
    case Lam(_, _) => "Lam"
    case Ap(_, _) => "Ap"
    case Sg(_, _) => "Sg"
    case Type => "Type"
    case Hole(_) => "Hole"
    case BoundaryHole(_) => "BoundaryHole"
    case Underscore => "Underscore"
    case Dim => "Dim"
    case Cof => "Cof"
    case CofEq(_, _) => "CofEq"
    case CofLe(_, _) => "CofLe"
    case Join(_) => "Join"
    case Meet(_) => "Meet"
    case CofBoundary(_) => "CofBoundary"
    case CofSplit(_) => "CofSplit"
    case TopC => "TopC"
    case BotC => "BotC"
    case HComChk(_, _, _) => "HComChk"
    case HFillChk(_, _) => "HFillChk"
  }

  function IdentTag(id: Ident): string {
    match id
    case Anon => "Anon"
    case User(_) => "User"
    case Machine(_) => "Machine"
  }

  // ---------------------------------------------------------------------
  // Encoding
  // ---------------------------------------------------------------------

  function EncodeStrings(ss: seq<string>): (r: seq<Json>)
    ensures |r| == |ss|
    ensures forall i :: 0 <= i < |ss| ==> r[i] == JStr(ss[i])
  {
    if ss == [] then [] else [JStr(ss[0])] + EncodeStrings(ss[1..])
  }

  /** `["Anon"]`, `["User", [segments]]` or `["Machine", name]`. */
  function EncodeIdent(id: Ident): (r: Json)
    ensures r.JArr? && |r.items| == (if id.Anon? then 1 else 2)
    ensures r.items[0] == JStr(IdentTag(id))
    ensures id.User? ==> r.items[1] == JArr(EncodeStrings(id.path))
    ensures id.Machine? ==> r.items[1] == JStr(id.name)
  {
    match id
    case Anon => JArr([JStr("Anon")])
    case User(path) => JArr([JStr("User"), JArr(EncodeStrings(path))])
    case Machine(name) => JArr([JStr("Machine"), JStr(name)])
  }

  function EncodeIdents(ids: seq<Ident>): (r: seq<Json>)
    ensures |r| == |ids|
    ensures forall i :: 0 <= i < |ids| ==> r[i] == EncodeIdent(ids[i])
  {
    if ids == [] then [] else [EncodeIdent(ids[0])] + EncodeIdents(ids[1..])
  }

  function EncodeName(name: Option<string>): Json {
    match name
    case None => JNull
    case Some(s) => JStr(s)
  }

  /** The derived record `{"name": ..., "silent": ...}`; the name is null exactly when absent. */
  function EncodeHole(h: Hole): (r: Json)
    ensures r.JObj? && |r.members| == 2
    ensures r.members[0].0 == "name" && r.members[1] == ("silent", JBool(h.silent))
    ensures r.members[0].1 == JNull <==> h.name.None?
    ensures h.name.Some? ==> r.members[0].1 == JStr(h.name.value)
  {
    JObj([("name", EncodeName(h.name)), ("silent", JBool(h.silent))])
  }

  /** A boxed child: the derived one-member record `{"node": ...}`. */
  function EncodeNode(n: Node): (r: Json)
    decreases n
    ensures r.JObj? && |r.members| == 1 && r.members[0].0 == "node"
    ensures r.members[0].1.JArr? && |r.members[0].1.items| == 1 + Arity(n.node)
    ensures r.members[0].1.items[0] == JStr(Tag(n.node))
  {
    JObj([("node", Encode(n.node))])
  }

  function EncodeNodes(ns: seq<Node>): (r: seq<Json>)
    decreases ns
    ensures |r| == |ns|
    ensures forall i :: 0 <= i < |ns| ==> r[i] == EncodeNode(ns[i])
  {
    if ns == [] then [] else [EncodeNode(ns[0])] + EncodeNodes(ns[1..])
  }

  /** A pair of children: a two-element array. */
  function EncodePair(p: (Node, Node)): (r: Json)
    decreases p
    ensures r.JArr? && |r.items| == 2
    ensures r.items[0] == EncodeNode(p.0) && r.items[1] == EncodeNode(p.1)
  {
    JArr([EncodeNode(p.0), EncodeNode(p.1)])
  }

  function EncodePairs(ps: seq<(Node, Node)>): (r: seq<Json>)
    decreases ps
    ensures |r| == |ps|
    ensures forall i :: 0 <= i < |ps| ==> r[i] == EncodePair(ps[i])
  {
    if ps == [] then [] else [EncodePair(ps[0])] + EncodePairs(ps[1..])
  }

  /** The derived record `{"names": [...], "ty": ...}`; the type is boxed without a record. */
  function EncodeCell(c: Cell<Node>): (r: Json)
    decreases c
    ensures r.JObj? && |r.members| == 2
    ensures r.members[0].0 == "names" && r.members[1].0 == "ty"
    ensures r.members[0].1.JArr? && |r.members[0].1.items| == |c.names|
    ensures r.members[1].1.JArr? && |r.members[1].1.items| == 1 + Arity(c.ty.node)
    ensures r.members[1].1.items[0] == JStr(Tag(c.ty.node))
  {
    JObj([("names", JArr(EncodeIdents(c.names))), ("ty", EncodeBoxed(c.ty))])
  }

  /** A child held directly in a box: its encoding with no enclosing record. */
  function EncodeBoxed(n: Node): (r: Json)
    decreases n
    ensures r.JArr? && |r.items| == 1 + Arity(n.node)
    ensures r.items[0] == JStr(Tag(n.node))
  {
    Encode(n.node)
  }

  function EncodeCells(cs: seq<Cell<Node>>): (r: seq<Json>)
    decreases cs
    ensures |r| == |cs|
    ensures forall i :: 0 <= i < |cs| ==> r[i] == EncodeCell(cs[i])
  {
    if cs == [] then [] else [EncodeCell(cs[0])] + EncodeCells(cs[1..])
  }

  /** The optional child of a boundary hole: null or the child. */
  function EncodeBoundary(o: Option<Node>): (r: Json)
    decreases o
    ensures r == JNull <==> o.None?
    ensures o.Some? ==> r == EncodeNode(o.value)
  {
    match o
    case None => JNull
    case Some(n) => EncodeNode(n)
  }

  /**
   * The tagged array of a term: the tag, then one element per declared field.
   */
  function Encode(t: Syntax<Node>): (r: Json)
    decreases t, 1
    ensures r.JArr? && |r.items| == 1 + Arity(t)
    ensures r.items[0] == JStr(Tag(t))
  {
    JArr([JStr(Tag(t))] + EncodeFields(t))
  }

  /** The encoded fields of a term, in declaration order. */
  function EncodeFields(t: Syntax<Node>): (r: seq<Json>)
    decreases t, 0
  {
    match t
    case Var(id) => [EncodeIdent(id)]
    case Lit(n) => [JNum(n)]
    case Pi(cells, body) => [JArr(EncodeCells(cells)), EncodeNode(body)]
    case Lam(binders, body) => [JArr(EncodeIdents(binders)), EncodeNode(body)]
    case Ap(head, args) => [EncodeNode(head), JArr(EncodeNodes(args))]
    case Sg(cells, body) => [JArr(EncodeCells(cells)), EncodeNode(body)]
    case Type => []
    case Hole(h) => [EncodeHole(h)]
    case BoundaryHole(boundary) => [EncodeBoundary(boundary)]
    case Underscore => []
    case Dim => []
    case Cof => []
    case CofEq(lhs, rhs) => [EncodeNode(lhs), EncodeNode(rhs)]
    case CofLe(lhs, rhs) => [EncodeNode(lhs), EncodeNode(rhs)]
    case Join(phis) => [JArr(EncodeNodes(phis))]
    case Meet(phis) => [JArr(EncodeNodes(phis))]
    case CofBoundary(phi) => [EncodeNode(phi)]
    case CofSplit(branches) => [JArr(EncodePairs(branches))]
    case TopC => []
    case BotC => []
    case HComChk(fam, src, tube) => [EncodeNode(fam), EncodeNode(src), EncodeNode(tube)]
    case HFillChk(fam, src) => [EncodeNode(fam), EncodeNode(src)]
  }

  // ---------------------------------------------------------------------
  // Decoding: dispatch on the tag, check the element count, decode fields
  // ---------------------------------------------------------------------

  function DecodeStrings(js: seq<Json>): Option<seq<string>> {
    if js == [] then Some([])
    else if !js[0].JStr? then None
    else
      var rest :- DecodeStrings(js[1..]);
      Some([js[0].s] + rest)
  }

  function DecodeIdent(j: Json): Option<Ident> {
    match j
    case JArr(items) =>
      if |items| == 1 && items[0] == JStr("Anon") then Some(Anon)
      else if |items| == 2 && items[0] == JStr("User") && items[1].JArr? then
        var path :- DecodeStrings(items[1].items);
        Some(User(path))
      else if |items| == 2 && items[0] == JStr("Machine") && items[1].JStr? then
        Some(Machine(items[1].s))
      else None
    case _ => None
  }

  function DecodeIdents(js: seq<Json>): Option<seq<Ident>> {
    if js == [] then Some([])
    else
      var id :- DecodeIdent(js[0]);
      var rest :- DecodeIdents(js[1..]);
      Some([id] + rest)
  }

  function DecodeName(j: Json): Option<Option<string>> {
    match j
    case JNull => Some(None)
    case JStr(s) => Some(Some(s))
    case _ => None
  }

  function DecodeHole(j: Json): Option<Hole> {
    match j
    case JObj(ms) =>
      if |ms| == 2 && ms[0].0 == "name" && ms[1].0 == "silent" && ms[1].1.JBool? then
        var name :- DecodeName(ms[0].1);
        Some(HoleInfo(name, ms[1].1.b))
      else None
    case _ => None
  }

  function DecodeNode(j: Json): Option<Node>
    decreases j
  {
    match j
    case JObj(ms) =>
      if |ms| == 1 && ms[0].0 == "node" then
        var t :- Decode(ms[0].1);
        Some(Node(t))
      else None
    case _ => None
  }

  function DecodeNodes(js: seq<Json>): Option<seq<Node>>
    decreases js
  {
    if js == [] then Some([])
    else
      var n :- DecodeNode(js[0]);
      var rest :- DecodeNodes(js[1..]);
      Some([n] + rest)
  }

  function DecodePair(j: Json): Option<(Node, Node)>
    decreases j
  {
    match j
    case JArr(items) =>
      if |items| == 2 then
        var a :- DecodeNode(items[0]);
        var b :- DecodeNode(items[1]);
        Some((a, b))
      else None
    case _ => None
  }

  function DecodePairs(js: seq<Json>): Option<seq<(Node, Node)>>
    decreases js
  {
    if js == [] then Some([])
    else
      var p :- DecodePair(js[0]);
      var rest :- DecodePairs(js[1..]);
      Some([p] + rest)
  }

  function DecodeCell(j: Json): Option<Cell<Node>>
    decreases j
  {
    match j
    case JObj(ms) =>
      if |ms| == 2 && ms[0].0 == "names" && ms[0].1.JArr? && ms[1].0 == "ty" then
        var names :- DecodeIdents(ms[0].1.items);
        var ty :- Decode(ms[1].1);
        Some(Cell(names, Node(ty)))
      else None
    case _ => None
  }

  function DecodeCells(js: seq<Json>): Option<seq<Cell<Node>>>
    decreases js
  {
    if js == [] then Some([])
    else
      var c :- DecodeCell(js[0]);
      var rest :- DecodeCells(js[1..]);
      Some([c] + rest)
  }

  /** The former a tag names, as its declaration index; unknown tags name none. */
  function TagIndex(tag: string): Option<nat> {
    if tag == "Var" then Some(0)
    else if tag == "Lit" then Some(1)
    else if tag == "Pi" then Some(2)
    else if tag == "Lam" then Some(3)
    else if tag == "Ap" then Some(4)
    else if tag == "Sg" then Some(5)
    else if tag == "Type" then Some(6)
    else if tag == "Hole" then Some(7)
    else if tag == "BoundaryHole" then Some(8)
    else if tag == "Underscore" then Some(9)
    else if tag == "Dim" then Some(10)
    else if tag == "Cof" then Some(11)
    else if tag == "CofEq" then Some(12)
    else if tag == "CofLe" then Some(13)
    else if tag == "Join" then Some(14)
    else if tag == "Meet" then Some(15)
    else if tag == "CofBoundary" then Some(16)
    else if tag == "CofSplit" then Some(17)
    else if tag == "TopC" then Some(18)
    else if tag == "BotC" then Some(19)
    else if tag == "HComChk" then Some(20)
    else if tag == "HFillChk" then Some(21)
    else None
  }

  /** Number of fields declared by the former with the given index. */
  function IndexArity(idx: nat): nat {
    if idx in {6, 9, 10, 11, 18, 19} then 0
    else if idx in {0, 1, 7, 8, 14, 15, 16, 17} then 1
    else if idx == 20 then 3
    else 2
  }

  /**
   * Look the tag up, check that the element count is exactly one more than
   * the former's arity, then decode the fields in declaration order.
   */
  function Decode(j: Json): Option<Syntax<Node>>
    decreases j, 1
  {
    match j
    case JArr(items) =>
      if |items| == 0 || !items[0].JStr? then None
      else
        var idx :- TagIndex(items[0].s);
        if |items| != 1 + IndexArity(idx) then None
        else DecodeFields(idx, items)
    case _ => None
  }

  /** The fields of the former with index `idx`, held in `items[1..]`. */
  function DecodeFields(idx: nat, items: seq<Json>): Option<Syntax<Node>>
    requires |items| == 1 + IndexArity(idx)
    decreases items, 0
  {
    if idx == 0 then
      var id :- DecodeIdent(items[1]);
      Some(Var(id))
    else if idx == 1 then
      if items[1].JNum? && 0 <= items[1].n < 0x1_0000_0000 then Some(Lit(items[1].n)) else None
    else if idx == 2 || idx == 5 then
      if !items[1].JArr? then None
      else
        var cells :- DecodeCells(items[1].items);
        var body :- DecodeNode(items[2]);
        Some(if idx == 2 then Pi(cells, body) else Sg(cells, body))
    else if idx == 3 then
      if !items[1].JArr? then None
      else
        var binders :- DecodeIdents(items[1].items);
        var body :- DecodeNode(items[2]);
        Some(Lam(binders, body))
    else if idx == 4 then
      if !items[2].JArr? then None
      else
        var head :- DecodeNode(items[1]);
        var args :- DecodeNodes(items[2].items);
        Some(Ap(head, args))
    else if idx == 7 then
      var h :- DecodeHole(items[1]);
      Some(Hole(h))
    else if idx == 8 then
      if items[1] == JNull then Some(BoundaryHole(None))
      else
        var child :- DecodeNode(items[1]);
        Some(BoundaryHole(Some(child)))
    else if idx == 12 || idx == 13 || idx == 21 then
      var a :- DecodeNode(items[1]);
      var b :- DecodeNode(items[2]);
      Some(if idx == 12 then CofEq(a, b) else if idx == 13 then CofLe(a, b) else HFillChk(a, b))
    else if idx == 14 || idx == 15 then
      if !items[1].JArr? then None
      else
        var phis :- DecodeNodes(items[1].items);
        Some(if idx == 14 then Join(phis) else Meet(phis))
    else if idx == 16 then
      var phi :- DecodeNode(items[1]);
      Some(CofBoundary(phi))
    else if idx == 17 then
      if !items[1].JArr? then None
      else
        var branches :- DecodePairs(items[1].items);
        Some(CofSplit(branches))
    else if idx == 20 then
      var fam :- DecodeNode(items[1]);
      var src :- DecodeNode(items[2]);
      var tube :- DecodeNode(items[3]);
      Some(HComChk(fam, src, tube))
    else if idx == 6 then Some(Type)
    else if idx == 9 then Some(Underscore)
    else if idx == 10 then Some(Dim)
    else if idx == 11 then Some(Cof)
    else if idx == 18 then Some(TopC)
    else Some(BotC)
  }

  // ---------------------------------------------------------------------
  // The encoding loses nothing: decoding inverts it
  // ---------------------------------------------------------------------

  lemma {:induction false} DecodeEncodeStrings(ss: seq<string>)
    ensures DecodeStrings(EncodeStrings(ss)) == Some(ss)
  {
    if ss != [] {
      DecodeEncodeStrings(ss[1..]);
      assert EncodeStrings(ss)[1..] == EncodeStrings(ss[1..]);
      assert [ss[0]] + ss[1..] == ss;
    }
  }

  lemma {:induction false} DecodeEncodeIdent(id: Ident)
    ensures DecodeIdent(EncodeIdent(id)) == Some(id)
  {
    if id.User? {
      DecodeEncodeStrings(id.path);
    }
  }

  lemma {:induction false} DecodeEncodeIdents(ids: seq<Ident>)
    ensures DecodeIdents(EncodeIdents(ids)) == Some(ids)
  {
    if ids != [] {
      DecodeEncodeIdent(ids[0]);
      DecodeEncodeIdents(ids[1..]);
      assert EncodeIdents(ids)[1..] == EncodeIdents(ids[1..]);
      assert [ids[0]] + ids[1..] == ids;
    }
  }

  lemma DecodeEncodeHole(h: Hole)
    ensures DecodeHole(EncodeHole(h)) == Some(h)
  {
  }

  /** Each tag names its own former, so tags are pairwise distinct. */
  lemma TagIndexOfTag<R>(t: Syntax<R>)
    ensures TagIndex(Tag(t)) == Some(VariantIndex(t))
  {
  }

  lemma ArityOfIndex<R>(t: Syntax<R>)
    ensures IndexArity(VariantIndex(t)) == Arity(t)
  {
  }

  /** Decoding an encoding finds the term's own former and hands its fields on. */
  lemma DecodeEncodeDispatch(t: Syntax<Node>)
    ensures |Encode(t).items| == 1 + IndexArity(VariantIndex(t))
    ensures Decode(Encode(t)) == DecodeFields(VariantIndex(t), Encode(t).items)
  {
    TagIndexOfTag(t);
    ArityOfIndex(t);
  }

  /** Round trip: decoding the encoding of any term gives the term back. */
  lemma {:induction false} DecodeEncode(t: Syntax<Node>)
    decreases t, 1
    ensures Decode(Encode(t)) == Some(t)
  {
    match t
    case Var(id) => RoundTripVar(t);
    case Lit(_) => RoundTripLit(t);
    case Pi(cells, body) => RoundTripPi(t);
    case Lam(binders, body) => RoundTripLam(t);
    case Ap(head, args) => RoundTripAp(t);
    case Sg(cells, body) => RoundTripSg(t);
    case Type => RoundTripType(t);
    case Hole(h) => RoundTripHole(t);
    case BoundaryHole(boundary) => RoundTripBoundaryHole(t);
    case Underscore => RoundTripUnderscore(t);
    case Dim => RoundTripDim(t);
    case Cof => RoundTripCof(t);
    case CofEq(lhs, rhs) => RoundTripCofEq(t);
    case CofLe(lhs, rhs) => RoundTripCofLe(t);
    case Join(phis) => RoundTripJoin(t);
    case Meet(phis) => RoundTripMeet(t);
    case CofBoundary(phi) => RoundTripCofBoundary(t);
    case CofSplit(branches) => RoundTripCofSplit(t);
    case TopC => RoundTripTopC(t);
    case BotC => RoundTripBotC(t);
    case HComChk(fam, src, tube) => RoundTripHComChk(t);
    case HFillChk(fam, src) => RoundTripHFillChk(t);
  }

  lemma {:induction false} RoundTripVar(t: Syntax<Node>)
    requires t.Var?
    decreases t, 0
    ensures Decode(Encode(t)) == Some(t)
  {
    DecodeEncodeDispatch(t);
    match t
    case Var(id) => DecodeEncodeIdent(id);
  }

  lemma {:induction false} RoundTripLit(t: Syntax<Node>)
    requires t.Lit?
    decreases t, 0
    ensures Decode(Encode(t)) == Some(t)
  {
    DecodeEncodeDispatch(t);
    match t
    case Lit(_) => 
  }

  lemma {:induction false} RoundTripPi(t: Syntax<Node>)
    requires t.Pi?
    decreases t, 0
    ensures Decode(Encode(t)) == Some(t)
  {
    DecodeEncodeDispatch(t);
    match t
    case Pi(cells, body) => DecodeEncodeCells(cells); DecodeEncodeNode(body);
  }

  lemma {:induction false} RoundTripLam(t: Syntax<Node>)
    requires t.Lam?
    decreases t, 0
    ensures Decode(Encode(t)) == Some(t)
  {
    DecodeEncodeDispatch(t);
    match t
    case Lam(binders, body) => DecodeEncodeIdents(binders); DecodeEncodeNode(body);
  }

  lemma {:induction false} RoundTripAp(t: Syntax<Node>)
    requires t.Ap?
    decreases t, 0
    ensures Decode(Encode(t)) == Some(t)
  {
    DecodeEncodeDispatch(t);
    match t
    case Ap(head, args) => DecodeEncodeNode(head); DecodeEncodeNodes(args);
  }

  lemma {:induction false} RoundTripSg(t: Syntax<Node>)
    requires t.Sg?
    decreases t, 0
    ensures Decode(Encode(t)) == Some(t)
  {
    DecodeEncodeDispatch(t);
    match t
    case Sg(cells, body) => DecodeEncodeCells(cells); DecodeEncodeNode(body);
  }

  lemma {:induction false} RoundTripType(t: Syntax<Node>)
    requires t.Type?
    decreases t, 0
    ensures Decode(Encode(t)) == Some(t)
  {
    DecodeEncodeDispatch(t);
    match t
    case Type => 
  }

  lemma {:induction false} RoundTripHole(t: Syntax<Node>)
    requires t.Hole?
    decreases t, 0
    ensures Decode(Encode(t)) == Some(t)
  {
    DecodeEncodeDispatch(t);
    match t
    case Hole(h) => DecodeEncodeHole(h);
  }

  lemma {:induction false} RoundTripBoundaryHole(t: Syntax<Node>)
    requires t.BoundaryHole?
    decreases t, 0
    ensures Decode(Encode(t)) == Some(t)
  {
    DecodeEncodeDispatch(t);
    match t
    case BoundaryHole(boundary) =>
      assert Encode(t).items[1] == EncodeBoundary(boundary);
      if boundary.Some? {
        DecodeEncodeNode(boundary.value);
        assert EncodeBoundary(boundary).JObj?;
      }
  }

  lemma {:induction false} RoundTripUnderscore(t: Syntax<Node>)
    requires t.Underscore?
    decreases t, 0
    ensures Decode(Encode(t)) == Some(t)
  {
    DecodeEncodeDispatch(t);
    match t
    case Underscore => 
  }

  lemma {:induction false} RoundTripDim(t: Syntax<Node>)
    requires t.Dim?
    decreases t, 0
    ensures Decode(Encode(t)) == Some(t)
  {
    DecodeEncodeDispatch(t);
    match t
    case Dim => 
  }

  lemma {:induction false} RoundTripCof(t: Syntax<Node>)
    requires t.Cof?
    decreases t, 0
    ensures Decode(Encode(t)) == Some(t)
  {
    DecodeEncodeDispatch(t);
    match t
    case Cof => 
  }

  lemma {:induction false} RoundTripCofEq(t: Syntax<Node>)
    requires t.CofEq?
    decreases t, 0
    ensures Decode(Encode(t)) == Some(t)
  {
    DecodeEncodeDispatch(t);
    match t
    case CofEq(lhs, rhs) => DecodeEncodeNode(lhs); DecodeEncodeNode(rhs);
  }

  lemma {:induction false} RoundTripCofLe(t: Syntax<Node>)
    requires t.CofLe?
    decreases t, 0
    ensures Decode(Encode(t)) == Some(t)
  {
    DecodeEncodeDispatch(t);
    match t
    case CofLe(lhs, rhs) => DecodeEncodeNode(lhs); DecodeEncodeNode(rhs);
  }

  lemma {:induction false} RoundTripJoin(t: Syntax<Node>)
    requires t.Join?
    decreases t, 0
    ensures Decode(Encode(t)) == Some(t)
  {
    DecodeEncodeDispatch(t);
    match t
    case Join(phis) => DecodeEncodeNodes(phis);
  }

  lemma {:induction false} RoundTripMeet(t: Syntax<Node>)
    requires t.Meet?
    decreases t, 0
    ensures Decode(Encode(t)) == Some(t)
  {
    DecodeEncodeDispatch(t);
    match t
    case Meet(phis) => DecodeEncodeNodes(phis);
  }

  lemma {:induction false} RoundTripCofBoundary(t: Syntax<Node>)
    requires t.CofBoundary?
    decreases t, 0
    ensures Decode(Encode(t)) == Some(t)
  {
    DecodeEncodeDispatch(t);
    match t
    case CofBoundary(phi) => DecodeEncodeNode(phi);
  }

  lemma {:induction false} RoundTripCofSplit(t: Syntax<Node>)
    requires t.CofSplit?
    decreases t, 0
    ensures Decode(Encode(t)) == Some(t)
  {
    DecodeEncodeDispatch(t);
    match t
    case CofSplit(branches) =>
      assert Encode(t).items == [JStr("CofSplit"), JArr(EncodePairs(branches))];
      DecodeEncodePairs(branches);
  }

  lemma {:induction false} RoundTripTopC(t: Syntax<Node>)
    requires t.TopC?
    decreases t, 0
    ensures Decode(Encode(t)) == Some(t)
  {
    DecodeEncodeDispatch(t);
    match t
    case TopC => 
  }

  lemma {:induction false} RoundTripBotC(t: Syntax<Node>)
    requires t.BotC?
    decreases t, 0
    ensures Decode(Encode(t)) == Some(t)
  {
    DecodeEncodeDispatch(t);
    match t
    case BotC => 
  }

  lemma {:induction false} RoundTripHComChk(t: Syntax<Node>)
    requires t.HComChk?
    decreases t, 0
    ensures Decode(Encode(t)) == Some(t)
  {
    DecodeEncodeDispatch(t);
    match t
    case HComChk(fam, src, tube) => DecodeEncodeNode(fam); DecodeEncodeNode(src); DecodeEncodeNode(tube);
  }

  lemma {:induction false} RoundTripHFillChk(t: Syntax<Node>)
    requires t.HFillChk?
    decreases t, 0
    ensures Decode(Encode(t)) == Some(t)
  {
    DecodeEncodeDispatch(t);
    match t
    case HFillChk(fam, src) => DecodeEncodeNode(fam); DecodeEncodeNode(src);
  }

  lemma {:induction false} DecodeEncodeNode(n: Node)
    decreases n
    ensures DecodeNode(EncodeNode(n)) == Some(n)
  {
    DecodeEncode(n.node);
  }

  lemma {:induction false} DecodeEncodeBoxed(n: Node)
    decreases n
    ensures Decode(EncodeBoxed(n)) == Some(n.node)
  {
    DecodeEncode(n.node);
  }

  lemma {:induction false} DecodeEncodeNodes(ns: seq<Node>)
    decreases ns
    ensures DecodeNodes(EncodeNodes(ns)) == Some(ns)
  {
    if ns != [] {
      DecodeEncodeNode(ns[0]);
      DecodeEncodeNodes(ns[1..]);
      assert EncodeNodes(ns)[1..] == EncodeNodes(ns[1..]);
      assert [ns[0]] + ns[1..] == ns;
    }
  }

  lemma {:induction false} DecodeEncodePair(p: (Node, Node))
    decreases p
    ensures DecodePair(EncodePair(p)) == Some(p)
  {
    DecodeEncodeNode(p.0);
    DecodeEncodeNode(p.1);
  }

  lemma {:induction false} DecodeEncodePairs(ps: seq<(Node, Node)>)
    decreases ps
    ensures DecodePairs(EncodePairs(ps)) == Some(ps)
  {
    if ps != [] {
      DecodeEncodePair(ps[0]);
      DecodeEncodePairs(ps[1..]);
      assert EncodePairs(ps)[1..] == EncodePairs(ps[1..]);
      assert [ps[0]] + ps[1..] == ps;
    }
  }

  lemma {:induction false} DecodeEncodeCell(c: Cell<Node>)
    decreases c
    ensures DecodeCell(EncodeCell(c)) == Some(c)
  {
    DecodeEncodeIdents(c.names);
    DecodeEncodeBoxed(c.ty);
  }

  lemma {:induction false} DecodeEncodeCells(cs: seq<Cell<Node>>)
    decreases cs
    ensures DecodeCells(EncodeCells(cs)) == Some(cs)
  {
    if cs != [] {
      DecodeEncodeCell(cs[0]);
      DecodeEncodeCells(cs[1..]);
      assert EncodeCells(cs)[1..] == EncodeCells(cs[1..]);
      assert [cs[0]] + cs[1..] == cs;
    }
  }
}
