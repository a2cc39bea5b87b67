/**
 * Values shared by the autojit class layer: the attribute types that make up a
 * specialization's signature, the generic (unspecialized) class, the
 * specialized classes derived from it, construction arguments and instances.
 */
module AutojitTypes {

  /** A concrete attribute type as inferred for an extension class attribute. */
  datatype AttrType = Float64 | Float32 | Int64 | Int32 | Bool | PyObject | Ext(name: string)

  /** An attribute dictionary: attribute name to attribute type. Equality of
      two signatures is full map equality (same names, same types, order ignored). */
  type Signature = map<string, AttrType>

  /** The user-defined class decorated with autojit; specializations derive from it. */
  datatype GenericClass = GenericClass(name: string)

  /** A specialized class. `id` is the class object's identity, `base` is the
      generic class it subclasses, `attrs` its attribute table's attribute dictionary. */
  datatype Variant = Variant(id: nat, base: GenericClass, attrs: Signature)

  /** A Python value passed to a constructor (only what the model needs to tell values apart). */
  datatype Value = FloatVal(r: real) | IntVal(i: int) | BoolVal(b: bool) | StrVal(s: string)

  /** Positional and keyword constructor arguments (`*args, **kwargs`). */
  datatype Args = Args(positional: seq<Value>, keywords: map<string, Value>)

  /** An object: its address (identity), its class and the arguments it was initialised with. */
  datatype Instance = Instance(addr: nat, cls: Variant, args: Args)

  /** An error raised inside the specializer (inference or compilation), surfaced unchanged. */
  datatype SpecializationError = SpecializationError(reason: string)

  datatype Result<+T> = Ok(value: T) | Err(error: SpecializationError)

  /** `issubclass(v, g)`: a specialized class is a subclass of the generic class it was built from. */
  predicate IsSubclass(v: Variant, g: GenericClass) {
    v.base == g
  }

  /** `isinstance(obj, g)` for a generic class `g`. */
  predicate IsInstance(obj: Instance, g: GenericClass) {
    IsSubclass(obj.cls, g)
  }
}
