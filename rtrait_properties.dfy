/** What the emitter promises: its inverse (reading the descriptor and the type
    back from an emitted declaration), the dispatch table per descriptor kind,
    and the shape every emitted implementation has. */
module RTraitProperties {
  import opened Syntax
  import opened RTrait

  /** The name an `impl` member is declared under. */
  function MemberName(m: ImplItem): string
  {
    match m
    case Const(name, _, _) => name
    case AssocType(name, _) => name
    case MethodItem(fn, _) => fn.name
  }

  predicate IsOpcodeConst(m: ImplItem)
  {
    m.Const? && m.name == "OPCODE" && m.ty == Basic("u8")
  }

  /** The descriptor whose implementation on `tyname` has this trait path and
      these members, if there is one. */
  function DescriptorOf(path: TypeRef, items: seq<ImplItem>, tyname: string): (d: Option<Trait>)
    ensures d.Some? ==> TraitPath(d.value) == path && Members(d.value, tyname) == items
  {
    match path
    case Generic(name, arg) =>
      if name == "From" && arg.Basic? && items == [FromMethod(arg.name, tyname)]
      then Some(FromXid(arg.name)) else None
    case Basic(name) =>
      if name == "Event" then
        if |items| == 1 && IsOpcodeConst(items[0]) then Some(Event(items[0].value)) else None
      else if name == "Error" then
        if |items| == 1 && IsOpcodeConst(items[0]) then Some(Error(items[0].value)) else None
      else if name == "Request" then
        if |items| == 2 && IsOpcodeConst(items[0]) && items[1].AssocType? && items[1].name == "Reply"
        then Some(Request(items[0].value, items[1].ty)) else None
      else if name == "XidType" then
        if items == [XidMethod(), FromXidMethod()] then Some(Xid) else None
      else if name == "Default" then
        if |items| == 1 && items[0].MethodItem? && |items[0].fn.statements| == 1
           && items[0].fn.statements[0].ReturnEnumVariant?
           && items[0] == DefaultMethod(tyname, items[0].fn.statements[0].variant)
        then Some(EnumDefault(items[0].fn.statements[0].variant)) else None
      else None
  }

  /** Reads the descriptor and the type name back from a declaration. Whatever
      it recognises is exactly what the emitter produces for them. */
  function Recognize(item: Item): (res: Option<(Trait, string)>)
    ensures res.Some? ==> ToSynItem(res.value.0, res.value.1) == [item]
  {
    match item.selfTy
    case Generic(_, _) => None
    case Basic(tyname) =>
      match DescriptorOf(item.traitPath, item.items, tyname)
      case None => None
      case Some(t) => Some((t, tyname))
  }

  /** Every emitted declaration is recognised, as the descriptor and type it came from. */
  lemma RecognizeEmitted(t: Trait, tyname: string)
    ensures Recognize(ToSynItem(t, tyname)[0]) == Some((t, tyname))
  {
  }

  /** `Recognize` characterises the emitter's output exactly. */
  lemma RecognizeIff(item: Item, t: Trait, tyname: string)
    ensures Recognize(item) == Some((t, tyname)) <==> ToSynItem(t, tyname) == [item]
  {
  }

  /** No two (descriptor, type) pairs produce the same declaration. */
  lemma EmitInjective(t1: Trait, n1: string, t2: Trait, n2: string)
    requires ToSynItem(t1, n1) == ToSynItem(t2, n2)
    ensures t1 == t2 && n1 == n2
  {
  }

  // The dispatch table, one descriptor kind at a time.

  /** An event implements `Event` with the single member `OPCODE: u8 = op`,
      for every 64-bit `op`: the opcode is not range-checked. */
  lemma EventImpl(op: U64, tyname: string)
    ensures ToSynItem(Event(op), tyname)[0].traitPath == Basic("Event")
    ensures ToSynItem(Event(op), tyname)[0].items == [Const("OPCODE", Basic("u8"), op)]
  {
  }

  /** An error implements `Error` with the single member `OPCODE: u8 = op`. */
  lemma ErrorImpl(op: U64, tyname: string)
    ensures ToSynItem(Error(op), tyname)[0].traitPath == Basic("Error")
    ensures ToSynItem(Error(op), tyname)[0].items == [Const("OPCODE", Basic("u8"), op)]
  {
  }

  /** A request implements `Request` with the opcode constant followed by the
      associated type `Reply`, bound to the reply type unchanged. */
  lemma RequestImpl(op: U64, reply: TypeRef, tyname: string)
    ensures ToSynItem(Request(op, reply), tyname)[0].traitPath == Basic("Request")
    ensures ToSynItem(Request(op, reply), tyname)[0].items
            == [Const("OPCODE", Basic("u8"), op), AssocType("Reply", reply)]
  {
  }

  /** A resource-identifier type implements `XidType` with two methods: `xid`,
      borrowing `self` and returning `XID`, then the static `from_xid`, taking
      one owned `xid: XID` and returning `Self`. */
  lemma XidImpl(tyname: string)
    ensures ToSynItem(Xid, tyname)[0].traitPath == Basic("XidType")
    ensures |ToSynItem(Xid, tyname)[0].items| == 2
    ensures ToSynItem(Xid, tyname)[0].items[0]
            == MethodItem(Method("xid", Some(Ref), [], Some(Basic("XID")), [GetXid]), true)
    ensures ToSynItem(Xid, tyname)[0].items[1]
            == MethodItem(Method("from_xid", None, [InputParameter("xid", Basic("XID"), Owned)],
                                 Some(Basic("Self")), [CreateXidType]), true)
  {
  }

  /** A default-valued enum implements `Default` with one static, parameterless
      `default` returning the type by name, whose body is the single statement
      `ReturnEnumVariant(tyname, variant)`. The variant is taken verbatim,
      whatever string it is. */
  lemma EnumDefaultImpl(variant: string, tyname: string)
    ensures ToSynItem(EnumDefault(variant), tyname)[0].traitPath == Basic("Default")
    ensures ToSynItem(EnumDefault(variant), tyname)[0].items
            == [MethodItem(Method("default", None, [], Some(Basic(tyname)),
                                  [ReturnEnumVariant(tyname, variant)]), true)]
  {
  }

  /** A legacy conversion implements `From<from>` with one static `from`
      taking an owned `base: from`, returning `Self`, whose body is the single
      statement `ConvertXids(from, tyname)`. */
  lemma FromXidImpl(from: string, tyname: string)
    ensures ToSynItem(FromXid(from), tyname)[0].traitPath == Generic("From", Basic(from))
    ensures ToSynItem(FromXid(from), tyname)[0].items
            == [MethodItem(Method("from", None, [InputParameter("base", Basic(from), Owned)],
                                  Some(Basic("Self")), [ConvertXids(from, tyname)]), true)]
  {
  }

  /** An opcode that does not fit the labelled `u8` is emitted as it is, by
      events, errors and requests alike. */
  lemma OpcodeNotNarrowed(t: Trait, tyname: string)
    requires t.Event? || t.Error? || t.Request?
    requires t.opcode >= 256
    ensures IsOpcodeConst(ToSynItem(t, tyname)[0].items[0])
    ensures ToSynItem(t, tyname)[0].items[0].value == t.opcode
    ensures ToSynItem(t, tyname)[0].items[0].value >= 256
  {
  }

  // The shape every emitted implementation has.

  /** Two descriptors that give the implementing type the same trait. */
  predicate SameRole(t1: Trait, t2: Trait)
  {
    match (t1, t2)
    case (Event(_), Event(_)) => true
    case (Error(_), Error(_)) => true
    case (Request(_, _), Request(_, _)) => true
    case (Xid, Xid) => true
    case (EnumDefault(_), EnumDefault(_)) => true
    case (FromXid(a), FromXid(b)) => a == b
    case _ => false
  }

  /** The trait path never depends on the type name. */
  lemma TraitPathIgnoresTypeName(t: Trait, n1: string, n2: string)
    ensures ToSynItem(t, n1)[0].traitPath == ToSynItem(t, n2)[0].traitPath
  {
  }

  /** Two descriptors select the same trait exactly when they fill the same role. */
  lemma SameTraitIff(t1: Trait, t2: Trait, tyname: string)
    ensures ToSynItem(t1, tyname)[0].traitPath == ToSynItem(t2, tyname)[0].traitPath
            <==> SameRole(t1, t2)
  {
  }

  /** Only the default-value and the conversion members mention the type name;
      all other member lists are the same for every type. */
  lemma MembersDependOnTypeNameIff(t: Trait, n1: string, n2: string)
    ensures ToSynItem(t, n1)[0].items == ToSynItem(t, n2)[0].items
            <==> n1 == n2 || !(t.EnumDefault? || t.FromXid?)
  {
  }

  /** No implementation declares two members under one name. */
  lemma MemberNamesDistinct(t: Trait, tyname: string)
    ensures var items := ToSynItem(t, tyname)[0].items;
            forall i, j :: 0 <= i < j < |items| ==> MemberName(items[i]) != MemberName(items[j])
  {
  }

  /** Every method is lowered as a trait member, returns a value, takes only
      owned parameters and runs exactly one statement; only `xid` has a
      receiver, and it borrows. */
  lemma MethodsWellFormed(t: Trait, tyname: string)
    ensures var items := ToSynItem(t, tyname)[0].items;
            forall i :: 0 <= i < |items| && items[i].MethodItem? ==>
              var m := items[i].fn;
              && items[i].traitMember
              && m.ret.Some?
              && |m.statements| == 1
              && (forall k :: 0 <= k < |m.params| ==> m.params[k].usage == Owned)
              && (m.receiver.Some? <==> m.name == "xid")
              && (m.receiver.Some? ==> m.receiver == Some(Ref) && t == Xid)
  {
  }
}
