# Capability-implementation emitter of the breadx code generator

The breadx generator builds a typed Rust client for the X11 protocol. One of its
rules sits in `generator/src/lvl3/rtrait.rs`. It takes one protocol-role
descriptor (`Trait`) and the name of a generated type, and emits the
`impl Trait for Type` declaration that makes the type fill that role.

This project models that rule in Dafny and proves what it promises. The six
descriptor kinds are:

- `Event(op)` and `Error(op)`: implement `Event` or `Error` with `OPCODE: u8 = op`.
- `Request(op, reply)`: implements `Request` with `OPCODE` and `type Reply = reply`.
- `Xid`: implements `XidType` with `xid(&self) -> XID` and `from_xid(xid: XID) -> Self`.
- `EnumDefault(v)`: implements `Default` with `default() -> T`, whose body is the
  single statement `ReturnEnumVariant(T, v)`.
- `FromXid(from)`: implements `From<from>` with `from(base: from) -> Self`, whose
  body is the single statement `ConvertXids(from, T)`.

Files:

- `syntax.dfy` (module `Syntax`): the emission tree, without tokens or spans.
  - `TypeRef`: a named type, or a named type applied to one argument.
  - `ImplItem`: a constant, an associated type, or a method.
  - `Method`: name, receiver, parameters, return type and body statements.
    `NewMethod` is the builder; filling in `statements` gives the body.
  - `Statement`: the closed vocabulary `GetXid`, `CreateXidType`,
    `ReturnEnumVariant` and `ConvertXids`.
  - `Item`: the `impl` declaration.
- `rtrait.dfy` (module `RTrait`): the emitter itself.
  - `Trait`, the descriptor.
  - `OpcodeConst`, the `OPCODE` constant.
  - `TraitPath` and `Members`: the two dispatches over the descriptor, as in the source.
  - `ToSynItem`, the emitter.
- `rtrait_properties.dfy` (module `RTraitProperties`): the properties of the emitter.
  - `Recognize`, the inverse of the emitter: it reads the descriptor and the type
    name back from a declaration.
  - The dispatch table, one lemma per descriptor kind.
  - Lemmas about the shape of every emitted implementation.
- `emission.dfy` (module `Emission`): a whole protocol's (type name, descriptor)
  pairs, emitted one call each and concatenated in order.
  - Every output declaration is read back as the pair it came from.
  - The output gives no type two impls of one trait exactly when no type is
    given two descriptors that fill the same role.

The properties below do not depend on the type name or the opcode being
well formed. As in the source, an opcode of 256 or more is emitted unchanged
under the type `u8`. An enum variant name is passed through without being
checked against the enum's variants.

`xid` returns the type `XID` and `from_xid` takes `xid: XID`; `default`
returns the type by its name (`Basic(tyname)`), not `Self`.

## Model

| member | source | states |
|---|---|---|
| `RTrait.OpcodeConst` | generator/src/lvl3/rtrait.rs:21-34 | the constant is named `OPCODE`, is labelled `u8`, and its literal is the opcode unchanged for every 64-bit value; EventImpl, ErrorImpl, RequestImpl and OpcodeNotNarrowed pin it inside the emitted impl |
| `RTrait.TraitPath` | generator/src/lvl3/rtrait.rs:47-70 | the path has a generic argument exactly for a legacy conversion, and then it is `From` applied to the source type; the full table is pinned per kind by EventImpl…FromXidImpl and across kinds by SameTraitIff |
| `RTrait.XidMethod` | generator/src/lvl3/rtrait.rs:94-101 | a trait-member method borrowing self, with no parameters and a single statement; XidImpl pins it exactly |
| `RTrait.FromXidMethod` | generator/src/lvl3/rtrait.rs:104-115 | a static trait-member method with one owned parameter and a single statement; XidImpl pins it exactly |
| `RTrait.DefaultMethod` | generator/src/lvl3/rtrait.rs:119-130 | a static trait-member method with no parameters, returning the type by name, with a single statement; EnumDefaultImpl pins it exactly |
| `RTrait.FromMethod` | generator/src/lvl3/rtrait.rs:133-148 | a static trait-member method with one owned parameter of the source type and a single statement; FromXidImpl pins it exactly |
| `RTrait.Members` | generator/src/lvl3/rtrait.rs:75-150 | two members for requests and identifier types, one otherwise; events, errors and requests start with the opcode constant, a request's second member is `Reply` bound to the reply type, and the members are methods exactly for the other three kinds; RecognizeIff shows the trait path and the member list together determine the descriptor |
| `RTrait.ToSynItem` | generator/src/lvl3/rtrait.rs:38-152 | exactly one declaration, an impl for the given type itself, whose trait is chosen from the descriptor alone and which has one or two members (never none) |
| `RTraitProperties.DescriptorOf` | generator/src/lvl3/rtrait.rs:47-150 | whatever descriptor it reads from a trait path and member list is one whose trait path and members on that type are exactly those |
| `RTraitProperties.Recognize` | generator/src/lvl3/rtrait.rs:38-152 | any (descriptor, type) it reads back from a declaration is a pair the emitter turns into exactly that declaration |
| `RTraitProperties.RecognizeEmitted` | generator/src/lvl3/rtrait.rs:38-152 | every emitted declaration is read back as the very descriptor and type name it was emitted for |
| `RTraitProperties.RecognizeIff` | generator/src/lvl3/rtrait.rs:38-152 | reading back yields (t, n) if and only if the emitter turns (t, n) into that declaration |
| `RTraitProperties.EmitInjective` | generator/src/lvl3/rtrait.rs:38-152 | two (descriptor, type) pairs that produce the same declarations are equal: the output determines its input |
| `RTraitProperties.EventImpl` | generator/src/lvl3/rtrait.rs:21-77 | an event implements `Event` with the single member `OPCODE: u8 = op`, for every 64-bit opcode, with no range check |
| `RTraitProperties.ErrorImpl` | generator/src/lvl3/rtrait.rs:21-77 | an error implements `Error` with the single member `OPCODE: u8 = op`, for every 64-bit opcode |
| `RTraitProperties.RequestImpl` | generator/src/lvl3/rtrait.rs:78-91 | a request implements `Request` with two members in this order: `OPCODE: u8 = op`, then `type Reply` bound to the reply type unchanged |
| `RTraitProperties.XidImpl` | generator/src/lvl3/rtrait.rs:92-117 | an identifier type implements `XidType` with two methods in this order: `xid`, borrowing self, no parameters, returning `XID`, body `GetXid`; then `from_xid`, static, one owned `xid: XID`, returning `Self`, body `CreateXidType` |
| `RTraitProperties.EnumDefaultImpl` | generator/src/lvl3/rtrait.rs:118-131 | a default-valued enum implements `Default` with one static, parameterless `default` returning the type by name, whose only statement is `ReturnEnumVariant(tyname, variant)` for any variant string, unchecked |
| `RTraitProperties.FromXidImpl` | generator/src/lvl3/rtrait.rs:132-149 | a legacy conversion implements `From<from>`, one path segment with one type argument, with one static `from` taking an owned `base: from`, returning `Self`, whose only statement is `ConvertXids(from, tyname)` |
| `RTraitProperties.OpcodeNotNarrowed` | generator/src/lvl3/rtrait.rs:29-31 | for events, errors and requests alike, an opcode of 256 or more, which does not fit the labelled `u8`, is emitted as the `OPCODE` literal unchanged |
| `RTraitProperties.TraitPathIgnoresTypeName` | generator/src/lvl3/rtrait.rs:47-70 | the implemented trait is the same whatever the type name |
| `RTraitProperties.SameTraitIff` | generator/src/lvl3/rtrait.rs:47-70 | two descriptors select the same trait if and only if they are of the same kind (and, for conversions, from the same source type) |
| `RTraitProperties.MembersDependOnTypeNameIff` | generator/src/lvl3/rtrait.rs:75-150 | the member list changes with the type name if and only if the descriptor is a default-valued enum or a legacy conversion |
| `RTraitProperties.MemberNamesDistinct` | generator/src/lvl3/rtrait.rs:75-150 | no implementation declares two members under the same name |
| `RTraitProperties.MethodsWellFormed` | generator/src/lvl3/rtrait.rs:92-149 | every emitted method is lowered as a trait member, has a return type, takes only owned parameters and has exactly one statement; only `xid` has a receiver, it borrows, and only identifier types get it |
| `Emission.EmitAll` | generator/src/lvl3/rtrait.rs:38-152 | repeated calls of the emitter, concatenated (the generator code that calls `to_syn_item` once per descriptor lies outside rtrait.rs and is not modelled; EmitAll stands for it): one declaration per (type, descriptor) pair, in order, each the one the emitter gives that pair |
| `Emission.EmitAllRecognized` | generator/src/lvl3/rtrait.rs:38-152 | every declaration of a batch is read back as the pair at its position |
| `Emission.EmitAllCoherentIff` | generator/src/lvl3/rtrait.rs:47-73 | a batch gives no type two impls of the same trait if and only if no type is given two descriptors of the same role |

## Left out

- `src/display/connection.rs`: the byte-stream transport of the generated
  client, which only forwards to operating-system reads and writes and async
  runtimes. It is network I/O with no logic of its own.
- Tokens, spans, attributes, visibility and defaultness of the `syn` nodes,
  which carry no meaning. Of the visibility rule, only the `true` flag passed
  when a method is lowered is kept (`traitMember`).
- Paths and types are both modelled as `TypeRef`. The helpers `str_to_path`,
  `str_to_ty`, `int_litexpr_int`, `Type::to_syn_ty`, `Method::new` and
  `Method::to_syn_impl_item` are not part of this model. They stand as plain
  constructors: a string becomes `Basic(s)`, a method becomes `MethodItem`, and
  a literal is the opcode value itself. So the injectivity of the emitter
  (`EmitInjective`, `RecognizeIff`) is a fact about the abstract tree: the real
  helpers, which may reject or normalise strings that are not identifiers, are
  not covered by it.
- How the four statements render to Rust expressions. Their definitions are
  not part of this model.
- Narrowing an opcode to 8 bits: the source does not do it. The constant is
  only labelled `u8`, and its literal is the 64-bit opcode unchanged.
- The generator code that calls `to_syn_item` once per descriptor and
  concatenates the results lies outside rtrait.rs and is not modelled;
  `Emission.EmitAll` stands for it.
- Ownership: `to_syn_item` consumes its descriptor. Dafny values are
  immutable, so that has no counterpart. Determinism holds because every
  member is a function.
