# coolttviz core in Dafny

This project models the two logic-bearing parts of coolttviz, the
visualiser that exchanges terms with the cooltt proof assistant.

1. **The syntax vocabulary and its wire encoding** (`src/syntax.rs`).
   - Identifiers and the 22 formers of `ConcreteSyntax` are modelled as `Syntax.Ident` and `Syntax.Syntax<R>`.
   - The hand-written `Serialize` impls are modelled as `Codec.Encode` and `Codec.EncodeIdent`. Each value becomes a tagged array: the former's name as a string, then its fields in declaration order.
   - The derived encodings below that level become records:
     - a boxed child `Node` is `{"node": ...}`;
     - a `Cell` is `{"names": [...], "ty": ...}`;
     - a `Hole` is `{"name": null | string, "silent": bool}`.
   - An optional child is `null` or the child, a pair is a two-element array, and a vector is an array.
   - The target is an abstract JSON value (`Json.Json`), not text.
   - `Codec.Decode` dispatches on the tag and inverts the encoder. It exists to prove that the peer can recover every term, so the encoding is injective, and that tags are pairwise distinct.
2. **The hole-filling term builder** (`src/termbuilder.rs`).
   - `TermBuilder.Term` is a class. Its fields are an arena (handle to payload, where a payload's children are handles), the next fresh handle, and a first-in first-out queue of open holes.
   - `Derecurse` flattens a recursive filler bottom-up: every boxed child is flattened and then stored in a fresh slot.
   - `Plug` pops the oldest hole and writes the flattened filler's payload over it.
   - The contracts say five things:
     - handles are fresh;
     - the only pre-existing slot that changes is the plugged hole;
     - the queue loses exactly its front;
     - resolving the handles gives back exactly the filler tree (`Flattens`, unique by `FlattensUnique`);
     - the filler's proper subterms take exactly the fresh handles, one each, in the order they are stored (`Slots` equals `Span`).

`syntax.rs` declares a non-generic `ConcreteSyntax` with `Node` children. `termbuilder.rs` uses a generic `ConcreteSyntax<R>` with `SyntaxRec` and `SyntaxRef` children. The model has one generic `Syntax<R>`:
- `Syntax<Node>` is the self-owning term. Its `Node` record also stands for `SyntaxRec`.
- `Syntax<nat>` is an arena payload whose children are handles.

## Model

| member | source | states |
|---|---|---|
| Codec.Encode | src/syntax.rs:92-174 | Every term encodes as an array of exactly 1 + (number of fields) elements whose first element is the former's own tag |
| Codec.EncodeNode | src/syntax.rs:16-19 | A boxed child encodes as a one-member record named `node` whose value is the child's tagged array: its tag, then one element per field |
| Codec.EncodeCell | src/syntax.rs:10-14 | A cell encodes as the record `names` then `ty`, with one element per name; `ty` is the type's tagged array with no `node` record |
| Codec.EncodePair | src/syntax.rs:46 | A branch encodes as a two-element array: the left child's record, then the right child's |
| Codec.EncodeBoundary | src/syntax.rs:127-130 | The optional child of a boundary hole encodes as null exactly when it is absent, otherwise as the child's record |
| Codec.EncodeIdents | src/syntax.rs:107-111 | The binders of a lambda encode one identifier array per binder, in order |
| Codec.EncodeStrings | src/syntax.rs:74-77 | A user path encodes as an array holding one string per segment, in order |
| Codec.EncodeIdent | src/syntax.rs:66-85 | An identifier encodes as `["Anon"]`, `["User", segments]` (the segment strings as one array) or `["Machine", name]`, with its own tag first |
| Codec.EncodeHole | src/syntax.rs:21-25 | A hole encodes as the record of `name` then `silent`; the name is null exactly when absent, otherwise the string |
| Codec.EncodeNodes | src/syntax.rs:144-151 | A vector of children encodes element by element, in order, as one-member records |
| Codec.EncodePairs | src/syntax.rs:156-159 | The branches of a split encode one pair array per branch, in order |
| Codec.EncodeBoxed | src/syntax.rs:13 | A cell's boxed type encodes as the type's own tagged array, tag first and one element per field, with no `node` record |
| Codec.EncodeCells | src/syntax.rs:102-106 | A telescope encodes one cell record per cell, in order |
| Codec.DecodeEncodeStrings | src/syntax.rs:74-77 | The path segments of a user identifier are recovered from their string array |
| Codec.DecodeEncodeIdent | src/syntax.rs:66-85 | Every identifier is recovered from its encoding |
| Codec.DecodeEncodeIdents | src/syntax.rs:107-111 | The binder list of a lambda is recovered from its array |
| Codec.DecodeEncodeHole | src/syntax.rs:21-25 | Every hole record is recovered, name and silence flag alike |
| Codec.TagIndexOfTag | src/syntax.rs:94-172 | Looking up a former's tag string finds that former's own position, so no tag names two formers |
| Codec.ArityOfIndex | src/syntax.rs:28-51 | The field count looked up by position is the declared field count of the former |
| Codec.DecodeEncodeDispatch | src/syntax.rs:92-93 | Decoding an encoded term finds its former by tag, checks the element count and decodes the fields of that former |
| Codec.DecodeEncode | src/syntax.rs:87-176 | Round trip: decoding the encoding of any term gives back that term |
| Codec.RoundTripVar | src/syntax.rs:94-97 | `["Var", id]` decodes to the same variable |
| Codec.RoundTripLit | src/syntax.rs:98-101 | `["Lit", n]` decodes to the same literal |
| Codec.RoundTripPi | src/syntax.rs:102-106 | `["Pi", cells, body]` decodes to the same cells and body |
| Codec.RoundTripLam | src/syntax.rs:107-111 | `["Lam", binders, body]` decodes to the same binders and body |
| Codec.RoundTripAp | src/syntax.rs:112-116 | `["Ap", head, args]` decodes to the same head and arguments |
| Codec.RoundTripSg | src/syntax.rs:117-121 | `["Sg", cells, body]` decodes to the same cells and body |
| Codec.RoundTripType | src/syntax.rs:122 | `["Type"]` decodes to `Type` |
| Codec.RoundTripHole | src/syntax.rs:123-126 | `["Hole", record]` decodes to the same hole |
| Codec.RoundTripBoundaryHole | src/syntax.rs:127-130 | `["BoundaryHole", null or child]` decodes to the same optional child |
| Codec.RoundTripUnderscore | src/syntax.rs:131 | `["Underscore"]` decodes to `Underscore` |
| Codec.RoundTripDim | src/syntax.rs:132 | `["Dim"]` decodes to `Dim` |
| Codec.RoundTripCof | src/syntax.rs:133 | `["Cof"]` decodes to `Cof` |
| Codec.RoundTripCofEq | src/syntax.rs:134-138 | `["CofEq", lhs, rhs]` decodes to the same sides, in order |
| Codec.RoundTripCofLe | src/syntax.rs:139-143 | `["CofLe", lhs, rhs]` decodes to the same sides, in order |
| Codec.RoundTripJoin | src/syntax.rs:144-147 | `["Join", phis]` decodes to the same list |
| Codec.RoundTripMeet | src/syntax.rs:148-151 | `["Meet", phis]` decodes to the same list |
| Codec.RoundTripCofBoundary | src/syntax.rs:152-155 | `["CofBoundary", phi]` decodes to the same child |
| Codec.RoundTripCofSplit | src/syntax.rs:156-159 | `["CofSplit", branches]` decodes to the same branches, in order |
| Codec.RoundTripTopC | src/syntax.rs:160 | `["TopC"]` decodes to `TopC` |
| Codec.RoundTripBotC | src/syntax.rs:161 | `["BotC"]` decodes to `BotC` |
| Codec.RoundTripHComChk | src/syntax.rs:162-167 | `["HComChk", fam, src, tube]` decodes to the same three children, in order |
| Codec.RoundTripHFillChk | src/syntax.rs:168-172 | `["HFillChk", fam, src]` decodes to the same two children, in order |
| Codec.DecodeEncodeNode | src/syntax.rs:16-19 | A boxed child's `{"node": ...}` record decodes to that child |
| Codec.DecodeEncodeBoxed | src/syntax.rs:10-14 | A cell's type, boxed without a record, decodes to that type |
| Codec.DecodeEncodeNodes | src/syntax.rs:43-44 | A vector of children decodes to the same children, in order |
| Codec.DecodeEncodePair | src/syntax.rs:46 | A two-element branch array decodes to the same pair |
| Codec.DecodeEncodePairs | src/syntax.rs:156-159 | The branch array decodes to the same branches, in order |
| Codec.DecodeEncodeCell | src/syntax.rs:10-14 | A cell record decodes to the same names and type |
| Codec.DecodeEncodeCells | src/syntax.rs:102-106 | A telescope decodes to the same cells, in order |
| CodecLaws.TagByIndex | src/syntax.rs:94-172 | The tag of a term is determined by its former alone: the entry at its position in the table of names in declaration order |
| CodecLaws.TagsDistinct | src/syntax.rs:94-172 | Two terms carry the same tag if and only if they are built by the same former |
| CodecLaws.EncodeNullary | src/syntax.rs:122-161 | Exactly `Type`, `Underscore`, `Dim`, `Cof`, `TopC` and `BotC` have no field, and exactly they encode as the one-element array holding their tag |
| CodecLaws.EncodeInjective | src/syntax.rs:87-176 | Two terms with the same encoding are equal |
| CodecLaws.EncodeIdentInjective | src/syntax.rs:66-85 | Two identifiers with the same encoding are equal |
| CodecLaws.NodeRecord | src/syntax.rs:16-19 | A boxed child encodes as a one-member record named `node` whose value decodes to the child |
| CodecLaws.CellRecord | src/syntax.rs:10-14 | A cell encodes as the record `names` then `ty`; the names decode to the cell's names and `ty` holds the type with no `node` record |
| CodecLaws.LitPayload | src/syntax.rs:98-101 | A literal is carried as its number, which lies in 0 .. 2^32 - 1 |
| CodecLaws.ApFieldOrder | src/syntax.rs:112-116 | An application has three elements: the head at index 1, then the argument array at index 2, each decoding to its field |
| CodecLaws.HComChkFieldOrder | src/syntax.rs:162-167 | `HComChk` has four elements; indices 1, 2 and 3 decode to its first, second and third child |
| CodecLaws.CofSplitFieldOrder | src/syntax.rs:156-159 | A split holds one array with one element per branch; element i decodes to branch i |
| CodecLaws.HolePayload | src/syntax.rs:123-126 | `Hole` carries the two-member record of `name` (null exactly when absent) and `silent` |
| CodecLaws.BoundaryHolePayload | src/syntax.rs:127-130 | A boundary hole carries null exactly when it has no child; otherwise its field decodes to the child |
| TermBuilder.Span | src/termbuilder.rs:37 | The run of handles from `lo` up to `hi - 1` has exactly `hi - lo` elements |
| TermBuilder.SpanAt | src/termbuilder.rs:37 | Element i of that run is `lo + i`, so the handles are strictly increasing and none occurs twice |
| TermBuilder.SpanConcat | src/termbuilder.rs:43-47 | Two adjacent runs of handles make one run |
| TermBuilder.FlattensSlots | src/termbuilder.rs:31-113 | A flattened term's proper subterms, read back through the arena in storage order, sit in exactly the handles `lo` up to `hi - 1`, one each: no two subterms share a slot |
| TermBuilder.CompositionSlots | src/termbuilder.rs:96-104 | The family's subterms and the family, then the source's, then the tube's take consecutive handles |
| TermBuilder.OperandsSlots | src/termbuilder.rs:55-111 | For `CofEq`, `CofLe` and `HFillChk`, the first operand's subterms and the operand itself, then the second's, take consecutive handles |
| TermBuilder.FlattensKept | src/termbuilder.rs:31-113 | A flattened tree laid out in the slots `lo` up to `hi - 1` still resolves after any change that keeps exactly those slots; slots below `lo` or from `hi` on may change freely |
| TermBuilder.FlattensUnique | src/termbuilder.rs:31-113 | Handles in an arena resolve to at most one tree, so a flattened payload determines its filler |
| TermBuilder.Term.constructor | src/termbuilder.rs:12-23 | A new term has exactly one slot, handle 0, holding the anonymous non-silent hole; the queue is exactly that handle |
| TermBuilder.Term.Plug | src/termbuilder.rs:25-29 | With no open hole, nothing changes and `NoHoles` is returned. Otherwise the oldest hole is returned and leaves the queue, whose rest keeps its order. That slot then resolves to the filler; the filler's proper subterms occupy exactly the fresh handles, one each, in storage order; no other existing slot changes |
| TermBuilder.Term.Insert | src/termbuilder.rs:37 | Storing a payload uses the next fresh handle, adds exactly that slot and changes no other |
| TermBuilder.Term.Derecurse | src/termbuilder.rs:31-113 | The returned payload resolves to the filler through fresh slots only. Each proper subterm gets its own fresh handle, and read back in storage order they are exactly the handles issued, in increasing order; existing slots and the hole queue are unchanged |
| TermBuilder.Term.Application | src/termbuilder.rs:40-49 | An application's head is stored first and resolves to the head; the argument handles follow and resolve to the arguments, in order |
| TermBuilder.Term.Operands | src/termbuilder.rs:55-111 | For `CofEq`, `CofLe` and `HFillChk`, the first operand is flattened and stored before the second, and each handle resolves to its operand |
| TermBuilder.Term.Composition | src/termbuilder.rs:96-104 | The family, source and tube are flattened and stored in that order, each handle resolving to its child |
| TermBuilder.Term.Child | src/termbuilder.rs:35-38 | A child is flattened, then stored in the last fresh slot, whose handle resolves to the child |
| TermBuilder.Term.Children | src/termbuilder.rs:43-47 | The handles of a vector of children resolve to those children one for one, in order |
| TermBuilder.Term.Split | src/termbuilder.rs:85-93 | The handle pairs of a split resolve to its branches one for one, in order |
| TermBuilder.Term.Branch | src/termbuilder.rs:87-91 | Both sides of a branch are flattened before either is stored; the left side then takes the second-to-last fresh handle and the right side the last, each resolving to its side |
| TermBuilder.Term.Sides | src/termbuilder.rs:88-89 | The left side is flattened into the first `Size` of its fresh slots and the right side into the rest, with nothing stored for the sides themselves |
| TermBuilder.PlugTwice | src/termbuilder.rs:12-29 | On a new term, a first plug fills handle 0, whose slot then resolves to the filler and to nothing else. The arena then holds handles 0 .. Size(filler), the filler's proper subterms taking handles 1 .. Size(filler) one each, and a second plug finds no hole |

## Left out

- `src/server.rs` is not part of this model: a TCP listener, a spawned thread and channel polling.
- `src/render.rs` and `src/system.rs` are not part of this model: windowing, shaders and `f32` geometry.
- `src/main.rs` (the entry point) and `src/tactic.rs` (two derived enums with no logic) are not part of this model.
- JSON text: the encoder targets an abstract JSON value, so serde_json's text formatting is not modelled.
- Serializer errors: the `?` propagation of serializer failures is not modelled, and the encoder is total.
- Number width: JSON numbers are unbounded integers; the literal's 32-bit range is kept by the `u32` subset type.
- The decoder has no counterpart in the source, which only serializes. It is a model-side inverse used to state injectivity.
- `Codec.EncodeFields` carries no contract of its own: the field list it builds is stated through `Codec.Encode` and the round-trip lemmas.
- The decoder is exact only on encodings. Whether it rejects every non-encoding (`Encode(Decode(j)) == j`) is not stated.
- Boxed children: the derived `Serialize` of `Node` (src/syntax.rs:16-19) wraps each one in a `{"node": ...}` record. A cell's `ty` is a bare `Box` (src/syntax.rs:13) and is encoded without a record.
- SlotMap internals are not modelled: handles are naturals issued by a counter, with no generation tags and no removal or reuse, since `Term` never removes a slot.
- The public `map` field of `Term` can be written by outside code. Such writes are not modelled: the arena changes only through `Plug`.
- `TermBuilder.Term.Derecurse` requires a filler built only from formers the source's `derecurse` matches. The source has no arm for `Pi`, `Sg`, `BoundaryHole` or `CofBoundary` (src/termbuilder.rs:32-112). `Plug` inherits the requirement only when a hole is open, since it flattens the filler only then.
- `TermBuilder.Term.Plug`: the panic "No holes in term!" on an empty queue is modelled as the outcome `NoHoles`, with the state unchanged, rather than as an abort.
