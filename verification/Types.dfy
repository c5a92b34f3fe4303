/** The semantic types of the Ciel checker. */
module Types {
  import opened Wrappers

  type DefId = nat

  datatype View = ReadOnly | Writable

  /** The types without component types. */
  datatype Atom =
    | Never | Void | Bool | Char
    | I8 | I16 | I32 | I64
    | U8 | U16 | U32 | U64 | Usize
    | F32 | F64
    | CSpelling(defId: DefId, abi: string, spelling: string)
    | Unknown

  datatype ClosureOwner =
    | FunctionOwner(defId: DefId)
    | GenericInstanceOwner(template: DefId, id: nat)

  datatype ClosureId = ClosureId(owner: ClosureOwner, origin: nat)

  /** A named component of a generated future or of hidden state. */
  datatype Field = Field(name: string, ty: Ty)

  datatype ConstraintRef = ConstraintRef(defId: DefId, name: string, args: seq<Ty>)

  datatype ConstraintBounds =
    ConstraintBounds(positive: seq<ConstraintRef>, negative: seq<ConstraintRef>)
  {
    predicate IsEmpty() {
      positive == [] && negative == []
    }

    /** Every required capability is listed here, with the same sign. */
    predicate ProvesAll(required: ConstraintBounds) {
      && (forall c :: c in required.positive ==> c in positive)
      && (forall c :: c in required.negative ==> c in negative)
    }
  }

  datatype Ty =
    | Hole(id: nat)
    | Prim(atom: Atom)
    | Generic(name: string)
    | Pointer(nullable: bool, view: View, inner: Ty)
    | Array(len: nat, elem: Ty)
    | Slice(view: View, elem: Ty)
    | Named(defId: Option<DefId>, name: string, args: seq<Ty>)
    | GeneratedFuture(name: string, output: Ty, cancelSafe: bool, abortable: bool,
                      affineState: bool, state: seq<Field>)
    | OpaqueState(base: Ty, state: seq<Field>)
    | DynamicInterface(interfaceId: DefId, name: string, args: seq<Ty>)
    | OpaqueReturn(keyId: DefId, args: seq<Ty>, bounds: ConstraintBounds)
    | Function(isUnsafe: bool, abi: Option<string>, ret: Ty, params: seq<Ty>)
    | Closure(ret: Ty, params: seq<Ty>, constraints: ConstraintBounds)
    | ClosureInstance(closure: ClosureId, ret: Ty, params: seq<Ty>, captures: seq<Ty>)

  /** Nominal identity: by definition when both sides have one, by name when neither has. */
  predicate SameNominal(leftId: Option<DefId>, leftName: string,
                        rightId: Option<DefId>, rightName: string)
  {
    match (leftId, rightId)
    case (Some(l), Some(r)) => l == r
    case (None, None) => leftName == rightName
    case _ => false
  }

  function FieldTys(fs: seq<Field>): (r: seq<Ty>)
    ensures |r| == |fs|
    ensures forall i :: 0 <= i < |fs| ==> r[i] == fs[i].ty
  {
    seq(|fs|, i requires 0 <= i < |fs| => fs[i].ty)
  }
}
