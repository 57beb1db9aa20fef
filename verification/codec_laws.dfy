/**
 * What the wire encoding promises its external peer: the shape of every
 * tagged array, the order of the fields, the derived records used for
 * children, cells and holes, and that no two terms share an encoding.
 */
module CodecLaws {
  import opened Syntax
  import opened Json
  import opened Codec

  /**
   * The tags in declaration order, as a table.  This is a second,
   * independent reading of the enum next to the match in `Codec.Tag`;
   * `TagByIndex` proves the two agree, so the tag of a term depends on its
   * former alone and the tags follow the declaration order.
   */
  const TagNames: seq<string> := [
    "Var", "Lit", "Pi", "Lam", "Ap", "Sg", "Type", "Hole", "BoundaryHole", "Underscore", "Dim",
    "Cof", "CofEq", "CofLe", "Join", "Meet", "CofBoundary", "CofSplit", "TopC", "BotC",
    "HComChk", "HFillChk"]

  lemma TagByIndex<R>(t: Syntax<R>)
    ensures |TagNames| == 22
    ensures Tag(t) == TagNames[VariantIndex(t)]
  {
    match t
    case Var(_) =>
    case Lit(_) =>
    case Pi(_, _) =>
    case Lam(_, _) =>
    case Ap(_, _) =>
    case Sg(_, _) =>
    case Type =>
    case Hole(_) =>
    case BoundaryHole(_) =>
    case Underscore =>
    case Dim =>
    case Cof =>
    case CofEq(_, _) =>
    case CofLe(_, _) =>
    case Join(_) =>
    case Meet(_) =>
    case CofBoundary(_) =>
    case CofSplit(_) =>
    case TopC =>
    case BotC =>
    case HComChk(_, _, _) =>
    case HFillChk(_, _) =>
  }

  /** Two terms carry the same tag exactly when they are built by the same former. */
  lemma TagsDistinct<R>(a: Syntax<R>, b: Syntax<R>)
    ensures Tag(a) == Tag(b) <==> VariantIndex(a) == VariantIndex(b)
  {
    TagIndexOfTag(a);
    TagIndexOfTag(b);
    TagByIndex(a);
    TagByIndex(b);
  }

  /** Exactly the six field-less formers encode as the tag alone. */
  lemma EncodeNullary(t: Syntax<Node>)
    ensures IsNullary(t) <==> Arity(t) == 0
    ensures IsNullary(t) <==> Encode(t) == JArr([JStr(Tag(t))])
  {
  }

  /** Distinct terms never share an encoding. */
  lemma EncodeInjective(a: Syntax<Node>, b: Syntax<Node>)
    ensures Encode(a) == Encode(b) ==> a == b
  {
    DecodeEncode(a);
    DecodeEncode(b);
  }

  /** Distinct identifiers never share an encoding. */
  lemma EncodeIdentInjective(a: Ident, b: Ident)
    ensures EncodeIdent(a) == EncodeIdent(b) ==> a == b
  {
    DecodeEncodeIdent(a);
    DecodeEncodeIdent(b);
  }

  /** A boxed child is a one-member record named "node" that holds the child's own encoding. */
  lemma NodeRecord(n: Node)
    ensures EncodeNode(n).JObj? && |EncodeNode(n).members| == 1
    ensures EncodeNode(n).members[0].0 == "node"
    ensures Decode(EncodeNode(n).members[0].1) == Some(n.node)
  {
    DecodeEncode(n.node);
  }

  /** A cell is the record of its names then its type, the type with no "node" record around it. */
  lemma CellRecord(c: Cell<Node>)
    ensures EncodeCell(c).JObj? && |EncodeCell(c).members| == 2
    ensures EncodeCell(c).members[0].0 == "names" && EncodeCell(c).members[1].0 == "ty"
    ensures EncodeCell(c).members[0].1.JArr?
    ensures DecodeIdents(EncodeCell(c).members[0].1.items) == Some(c.names)
    ensures Decode(EncodeCell(c).members[1].1) == Some(c.ty.node)
  {
    DecodeEncodeIdents(c.names);
    DecodeEncode(c.ty.node);
  }

  /** A literal is carried as a number within the unsigned 32-bit range. */
  lemma LitPayload(t: Syntax<Node>)
    requires t.Lit?
    ensures |Encode(t).items| == 2 && Encode(t).items[1] == JNum(t.n)
    ensures 0 <= Encode(t).items[1].n < 0x1_0000_0000
  {
  }

  /** An application lists its head before its argument vector. */
  lemma ApFieldOrder(t: Syntax<Node>)
    requires t.Ap?
    ensures |Encode(t).items| == 3 && Encode(t).items[2].JArr?
    ensures DecodeNode(Encode(t).items[1]) == Some(t.head)
    ensures DecodeNodes(Encode(t).items[2].items) == Some(t.args)
  {
    DecodeEncodeNode(t.head);
    DecodeEncodeNodes(t.args);
  }

  /** A homogeneous composition lists family, source and tube, in that order. */
  lemma HComChkFieldOrder(t: Syntax<Node>)
    requires t.HComChk?
    ensures |Encode(t).items| == 4
    ensures DecodeNode(Encode(t).items[1]) == Some(t.fam)
    ensures DecodeNode(Encode(t).items[2]) == Some(t.src)
    ensures DecodeNode(Encode(t).items[3]) == Some(t.tube)
  {
    DecodeEncodeNode(t.fam);
    DecodeEncodeNode(t.src);
    DecodeEncodeNode(t.tube);
  }

  /** A split is one array of branches, each a two-element array, in the order given. */
  lemma CofSplitFieldOrder(t: Syntax<Node>)
    requires t.CofSplit?
    ensures |Encode(t).items| == 2 && Encode(t).items[1].JArr?
    ensures |Encode(t).items[1].items| == |t.branches|
    ensures forall i :: 0 <= i < |t.branches| ==>
      DecodePair(Encode(t).items[1].items[i]) == Some(t.branches[i])
  {
    var branches := EncodePairs(t.branches);
    assert Encode(t) == JArr([JStr("CofSplit"), JArr(branches)]);
    forall i | 0 <= i < |t.branches|
      ensures DecodePair(branches[i]) == Some(t.branches[i])
    {
      DecodeEncodePair(t.branches[i]);
    }
  }

  /** A hole carries the record of its name, null exactly when absent, and its silence flag. */
  lemma HolePayload(t: Syntax<Node>)
    requires t.Hole?
    ensures |Encode(t).items| == 2 && Encode(t).items[1].JObj?
    ensures |Encode(t).items[1].members| == 2
    ensures Encode(t).items[1].members[0].0 == "name"
    ensures Encode(t).items[1].members[0].1 == JNull <==> t.hole.name.None?
    ensures Encode(t).items[1].members[1] == ("silent", JBool(t.hole.silent))
  {
  }

  /** A boundary hole carries null when it has no child, and the child's record otherwise. */
  lemma BoundaryHolePayload(t: Syntax<Node>)
    requires t.BoundaryHole?
    ensures |Encode(t).items| == 2
    ensures Encode(t).items[1] == JNull <==> t.boundary.None?
    ensures t.boundary.Some? ==> DecodeNode(Encode(t).items[1]) == Some(t.boundary.value)
  {
    assert Encode(t).items == [JStr("BoundaryHole"), EncodeBoundary(t.boundary)];
    if t.boundary.Some? {
      DecodeEncodeNode(t.boundary.value);
    }
  }
}
