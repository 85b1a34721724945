/** The emission tree that the implementation emitter builds: an abstract,
    renderer-independent picture of the `syn` nodes it produces. Spans, tokens,
    attributes, visibility and defaultness carry no meaning and are not kept. */
module Syntax {

  datatype Option<+T> = None | Some(value: T)

  /** The width of the opcode fields of a capability descriptor. */
  type U64 = x: int | 0 <= x < 0x1_0000_0000_0000_0000

  /** A named type or path (`Event`, `Window`, `u8`), or a named type applied to
      one type argument (`From<WindowBase>`). */
  datatype TypeRef = Basic(name: string) | Generic(name: string, arg: TypeRef)

  /** How a receiver or a parameter is passed: borrowed or by value. */
  datatype ParameterUsage = Ref | Owned

  datatype InputParameter = InputParameter(name: string, ty: TypeRef, usage: ParameterUsage)

  /** The closed vocabulary of method bodies; how each renders is not modelled. */
  datatype Statement =
    | GetXid
    | CreateXidType
    | ReturnEnumVariant(owner: string, variant: string)
    | ConvertXids(oldName: string, newName: string)

  /** A method under construction: `receiver == None` is a static method. */
  datatype Method = Method(
    name: string,
    receiver: Option<ParameterUsage>,
    params: seq<InputParameter>,
    ret: Option<TypeRef>,
    statements: seq<Statement>)

  /** One member of an `impl` block. `traitMember` records the flag given when a
      method is lowered, which suppresses its visibility modifier. */
  datatype ImplItem =
    | Const(name: string, ty: TypeRef, value: U64)
    | AssocType(name: string, ty: TypeRef)
    | MethodItem(fn: Method, traitMember: bool)

  /** `impl traitPath for selfTy { items }` */
  datatype Item = Impl(traitPath: TypeRef, selfTy: TypeRef, items: seq<ImplItem>)

  /** A fresh method with an empty body, as the method builder returns it. */
  function NewMethod(
    name: string, receiver: Option<ParameterUsage>,
    params: seq<InputParameter>, ret: Option<TypeRef>): Method
  {
    Method(name, receiver, params, ret, [])
  }

  /** Lowers a finished method to an `impl` member. */
  function ToImplItem(m: Method, traitMember: bool): ImplItem
  {
    MethodItem(m, traitMember)
  }
}
