/**
 * A specializer that meets the contract the routing relies on, built from an
 * abstract type inference: infer the argument types and the attribute
 * dictionary, reuse the cached class for those argument types or compile and
 * cache a new one, then instantiate it through `SpecializedMeta.__call__`.
 * It stands in for `NumbaSpecializingWrapper` and carries the module's
 * `__main__` demonstration.
 */
module ExampleSpecializer {
  import opened AutojitTypes
  import opened SpecializerCache
  import opened AutojitLookup
  import opened AutojitDispatch

  /** What type inference yields for a constructor call. */
  datatype Typing = Typing(argTypes: ArgTypes, attrs: Signature)

  type Inference = Args -> Result<Typing>

  function Specialize(g: GenericClass, infer: Inference, st: Store, args: Args): (reply: Reply)
    ensures StoreValid(st, g) ==> HonestReply(g, st, args, reply)
    ensures infer(args).Err? ==> reply == Reply(st, Err(infer(args).error))
    ensures infer(args).Ok? ==> reply.result.Ok?
    ensures infer(args).Ok? && infer(args).value.argTypes in st.cache.entries ==>
      reply.store.cache == st.cache && reply.result.value.cls == st.cache.entries[infer(args).value.argTypes]
    ensures infer(args).Ok? && infer(args).value.argTypes !in st.cache.entries ==>
      && reply.result.value.cls.attrs == infer(args).value.attrs
      && reply.result.value.cls.base == g
      && reply.store.cache.entries == st.cache.entries[infer(args).value.argTypes := reply.result.value.cls]
  {
    match infer(args)
    case Err(e) => Reply(st, Err(e))
    case Ok(t) =>
      if t.argTypes in st.cache.entries then
        var (st', obj) := SpecializedCall(st, st.cache.entries[t.argTypes], args);
        Reply(st', Ok(obj))
      else
        var v := Variant(|st.cache.order|, g, t.attrs);
        var (st', obj) := SpecializedCall(Store(Insert(st.cache, t.argTypes, v), st.nextAddr), v, args);
        NewClassKeepsStore(g, st.cache, t.argTypes, v);
        Reply(st', Ok(obj))
  }

  /** Caching a freshly compiled subclass of `g` under a new key keeps the cache valid. */
  lemma NewClassKeepsStore(g: GenericClass, c: Cache, k: ArgTypes, v: Variant)
    requires k !in c.entries && IsSubclass(v, g)
    ensures var c' := Insert(c, k, v);
            && v in c'.entries.Values
            && CacheGrows(c, c')
            && (CacheValid(c, g) ==> CacheValid(c', g))
  {
    var c' := Insert(c, k, v);
    assert c'.entries[k] == v;
    forall u | u in c'.entries.Values && CacheValid(c, g)
      ensures IsSubclass(u, g)
    {
      var j :| j in c'.entries && c'.entries[j] == u;
      if j != k {
        assert c.entries[j] == u;
      }
    }
  }

  function Specializer(g: GenericClass, infer: Inference): Specializer {
    (st, args) => Specialize(g, infer, st, args)
  }

  /** The stand-in keeps every promise the routing relies on. */
  lemma SpecializerIsHonest(g: GenericClass, infer: Inference)
    ensures SpecializerContract(g, Specializer(g, infer))
  {
    forall st: Store, args: Args | StoreValid(st, g)
      ensures HonestReply(g, st, args, Specializer(g, infer)(st, args))
    {
      assert Specializer(g, infer)(st, args) == Specialize(g, infer, st, args);
    }
  }

  // The module's __main__ block: an autojit class C whose __init__ stores its argument.

  const C := GenericClass("C")

  /** The attribute type inferred for one argument value. */
  function TypeOf(x: Value): AttrType {
    match x
    case FloatVal(_) => Float64
    case IntVal(_) => Int64
    case BoolVal(_) => Bool
    case StrVal(_) => PyObject
  }

  /** Inference for `def __init__(self, value): self.value = value`. */
  function InferC(args: Args): Result<Typing> {
    if |args.positional| == 1 && args.keywords == map[] then
      Ok(Typing([TypeOf(args.positional[0])], map["value" := TypeOf(args.positional[0])]))
    else
      Err(SpecializationError("__init__() takes exactly 2 arguments"))
  }

  /** `obj = C(10.0)`; `C[{'value': double}]` is a subclass of `C` (indeed `type(obj)`),
      `obj` is an instance of `C`, the specializer ran once, and calling the
      specialized class afterwards does not run it again. */
  lemma AutojitDemo()
    ensures var w0 := World(Store(EmptyCache(), 0), []);
            var args := Args([FloatVal(10.0)], map[]);
            var r := Construct(w0, Unspecialized(C), args, Specializer(C, InferC));
            && r.result.Ok?
            && IsInstance(r.result.value, C)
            && GetItem(r.world.store.cache, map["value" := Float64]) == Found(r.result.value.cls)
            && IsSubclass(GetItem(r.world.store.cache, map["value" := Float64]).cls, C)
            && GetItem(r.world.store.cache, map["value" := Int64]) == KeyError(map["value" := Int64])
            && r.world.specializerCalls == [args]
            && Construct(r.world, Specialized(r.result.value.cls), args, Specializer(C, InferC)).world.specializerCalls == [args]
  {
    var w0 := World(Store(EmptyCache(), 0), []);
    var args := Args([FloatVal(10.0)], map[]);
    var r := Construct(w0, Unspecialized(C), args, Specializer(C, InferC));
    var cls := Variant(0, C, map["value" := Float64]);
    assert InferC(args) == Ok(Typing([Float64], map["value" := Float64]));
    assert r.result == Ok(Instance(0, cls, args));
    var cache := r.world.store.cache;
    assert cache == Cache([[Float64]], map[[Float64] := cls]);
    assert Specializations(cache) == [cls];
    assert GetItem(cache, map["value" := Float64]) == Found(cls);
    assert map["value" := Int64] != map["value" := Float64] by {
      assert map["value" := Int64]["value"] != map["value" := Float64]["value"];
    }
    assert GetItem(cache, map["value" := Int64]) == KeyError(map["value" := Int64]);
  }

  /** A second call with arguments of the same types reuses the cached class. */
  lemma SameTypesReuseClass(g: GenericClass, infer: Inference, w: World, a1: Args, a2: Args)
    requires StoreValid(w.store, g)
    requires infer(a1).Ok? && infer(a2) == infer(a1)
    ensures var r1 := Construct(w, Unspecialized(g), a1, Specializer(g, infer));
            var r2 := Construct(r1.world, Unspecialized(g), a2, Specializer(g, infer));
            && r1.result.Ok? && r2.result.Ok?
            && r2.result.value.cls == r1.result.value.cls
            && r2.world.store.cache == r1.world.store.cache
            && r1.result.value.addr != r2.result.value.addr
  {
  }
}
