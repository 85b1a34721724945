/** The capability-implementation emitter: turns one protocol-role descriptor
    and the name of a generated type into the `impl Trait for Type` declaration
    that makes the type fill that role. */
module RTrait {
  import opened Syntax

  /** The protocol role a generated type must fill. */
  datatype Trait =
    | Event(opcode: U64)
    | Error(opcode: U64)
    | Request(opcode: U64, reply: TypeRef)
    | Xid
    | EnumDefault(variant: string)
    | FromXid(from: string)

  /** `const OPCODE: u8 = op;` The literal is the descriptor's opcode unchanged:
      nothing narrows it or checks that it fits the labelled type. */
  function OpcodeConst(op: U64): (c: ImplItem)
    ensures c.Const? && c.name == "OPCODE" && c.ty == Basic("u8")
    ensures c.value == op
  {
    Const("OPCODE", Basic("u8"), op)
  }

  /** The trait implemented for each descriptor kind. */
  function TraitPath(t: Trait): (p: TypeRef)
    ensures p.Generic? <==> t.FromXid?
    ensures p.Generic? ==> p.name == "From" && p.arg == Basic(t.from)
  {
    match t
    case Event(_) => Basic("Event")
    case Error(_) => Basic("Error")
    case Request(_, _) => Basic("Request")
    case Xid => Basic("XidType")
    case EnumDefault(_) => Basic("Default")
    case FromXid(from) => Generic("From", Basic(from))
  }

  /** `fn xid(&self) -> XID`, whose body is the single `GetXid` statement. */
  function XidMethod(): (m: ImplItem)
    ensures m.MethodItem? && m.traitMember && m.fn.receiver == Some(Ref)
    ensures m.fn.params == [] && |m.fn.statements| == 1
  {
    var m := NewMethod("xid", Some(Ref), [], Some(Basic("XID")));
    ToImplItem(m.(statements := [GetXid]), true)
  }

  /** `fn from_xid(xid: XID) -> Self`, whose body is the single
      `CreateXidType` statement. */
  function FromXidMethod(): (m: ImplItem)
    ensures m.MethodItem? && m.traitMember && m.fn.receiver == None
    ensures |m.fn.params| == 1 && m.fn.params[0].usage == Owned && |m.fn.statements| == 1
  {
    var m := NewMethod(
      "from_xid", None, [InputParameter("xid", Basic("XID"), Owned)], Some(Basic("Self")));
    ToImplItem(m.(statements := [CreateXidType]), true)
  }

  /** `fn default() -> tyname`, whose body is the single statement
      `ReturnEnumVariant(tyname, variant)`. */
  function DefaultMethod(tyname: string, variant: string): (m: ImplItem)
    ensures m.MethodItem? && m.traitMember && m.fn.receiver == None
    ensures m.fn.params == [] && m.fn.ret == Some(Basic(tyname))
    ensures |m.fn.statements| == 1
  {
    var m := NewMethod("default", None, [], Some(Basic(tyname)));
    ToImplItem(m.(statements := [ReturnEnumVariant(tyname, variant)]), true)
  }

  /** `fn from(base: from) -> Self`, whose body is the single statement
      `ConvertXids(from, tyname)`. */
  function FromMethod(from: string, tyname: string): (m: ImplItem)
    ensures m.MethodItem? && m.traitMember && m.fn.receiver == None
    ensures |m.fn.params| == 1 && m.fn.params[0].ty == Basic(from) && m.fn.params[0].usage == Owned
    ensures |m.fn.statements| == 1
  {
    var m := NewMethod(
      "from", None, [InputParameter("base", Basic(from), Owned)], Some(Basic("Self")));
    ToImplItem(m.(statements := [ConvertXids(from, tyname)]), true)
  }

  /** The members of the implementation for each descriptor kind. */
  function Members(t: Trait, tyname: string): (ms: seq<ImplItem>)
    ensures |ms| == (if t.Request? || t.Xid? then 2 else 1)
    ensures t.Event? || t.Error? || t.Request? ==> ms[0] == OpcodeConst(t.opcode)
    ensures t.Request? ==> ms[1] == AssocType("Reply", t.reply)
    ensures forall i :: 0 <= i < |ms| ==> (ms[i].MethodItem? <==> t.Xid? || t.EnumDefault? || t.FromXid?)
  {
    match t
    case Event(opcode) => [OpcodeConst(opcode)]
    case Error(opcode) => [OpcodeConst(opcode)]
    case Request(opcode, reply) => [OpcodeConst(opcode), AssocType("Reply", reply)]
    case Xid => [XidMethod(), FromXidMethod()]
    case EnumDefault(variant) => [DefaultMethod(tyname, variant)]
    case FromXid(from) => [FromMethod(from, tyname)]
  }

  /** The declarations emitted for `t` on the type `tyname`: always exactly one
      implementation, of a non-empty member list, for that very type. */
  function ToSynItem(t: Trait, tyname: string): (r: seq<Item>)
    ensures |r| == 1
    ensures r[0].selfTy == Basic(tyname)
    ensures r[0].traitPath == TraitPath(t)
    ensures 1 <= |r[0].items| <= 2
  {
    [Impl(TraitPath(t), Basic(tyname), Members(t, tyname))]
  }
}
