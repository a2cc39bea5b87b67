/**
 * Construction routing. Calling the generic class goes through
 * `AutojitMeta.__call__`, which hands the arguments to the class specializer;
 * calling a specialized class goes through `SpecializedMeta.__call__`, which
 * is `type.__call__` and never reaches the specializer.
 *
 * The specializer is a parameter: a function from the state it owns (its cache
 * and the allocator) and the arguments to its reply. `World` adds a trace of
 * every argument tuple the specializer was invoked with; the trace is
 * instrumentation for stating the routing properties and is never read by the
 * routing itself.
 */
module AutojitDispatch {
  import opened AutojitTypes
  import opened SpecializerCache
  import opened AutojitLookup

  /** State reachable from the classes: the specializer's cache and the next free object address. */
  datatype Store = Store(cache: Cache, nextAddr: nat)

  datatype World = World(store: Store, specializerCalls: seq<Args>)

  /** What the specializer gives back: its new state and the object (or the error it raised). */
  datatype Reply = Reply(store: Store, result: Result<Instance>)

  /** `class_specializer` (a `NumbaSpecializingWrapper`): arguments to a specialized object. */
  type Specializer = (Store, Args) -> Reply

  /** Which metaclass receives a construction request. */
  datatype ClassKind = Unspecialized(generic: GenericClass) | Specialized(variant: Variant)

  datatype Outcome = Outcome(world: World, result: Result<Instance>)

  /** `SpecializedMeta.__call__`, i.e. `type.__call__(cls, *args, **kwargs)`: a fresh
      instance of exactly `v`, initialised with `args`; the cache is not touched. */
  function SpecializedCall(st: Store, v: Variant, args: Args): (r: (Store, Instance))
    ensures r.1.cls == v && r.1.args == args
    ensures st.nextAddr <= r.1.addr < r.0.nextAddr
    ensures r.0.cache == st.cache
  {
    (Store(st.cache, st.nextAddr + 1), Instance(st.nextAddr, v, args))
  }

  /** `AutojitMeta.__call__`: return whatever the specializer returns for the same arguments. */
  function AutojitCall(w: World, args: Args, specialize: Specializer): (r: Outcome)
    ensures r.result == specialize(w.store, args).result
    ensures r.world.store == specialize(w.store, args).store
    ensures r.world.specializerCalls == w.specializerCalls + [args]
  {
    var reply := specialize(w.store, args);
    Outcome(World(reply.store, w.specializerCalls + [args]), reply.result)
  }

  /** Calling a class: the metaclass of the class decides the path. */
  function Construct(w: World, kind: ClassKind, args: Args, specialize: Specializer): (r: Outcome)
    ensures kind.Unspecialized? ==> r == AutojitCall(w, args, specialize)
    ensures kind.Specialized? ==>
      && r.world.specializerCalls == w.specializerCalls
      && r.world.store.cache == w.store.cache
      && r.result.Ok? && r.result.value.cls == kind.variant && r.result.value.args == args
  {
    match kind
    case Unspecialized(_) => AutojitCall(w, args, specialize)
    case Specialized(v) =>
      var (st, obj) := SpecializedCall(w.store, v, args);
      Outcome(World(st, w.specializerCalls), Ok(obj))
  }

  /** Constructing a specialized class does not depend on the specializer at all. */
  lemma SpecializedIgnoresSpecializer(w: World, v: Variant, args: Args, s1: Specializer, s2: Specializer)
    ensures Construct(w, Specialized(v), args, s1) == Construct(w, Specialized(v), args, s2)
  {
  }

  /** Two direct constructions of the same class with equal arguments give two
      distinct objects, and neither reaches the specializer. */
  lemma DirectConstructionTwice(w: World, v: Variant, args: Args, specialize: Specializer)
    ensures var r1 := Construct(w, Specialized(v), args, specialize);
            var r2 := Construct(r1.world, Specialized(v), args, specialize);
            && r1.result.Ok? && r2.result.Ok?
            && r1.result.value.addr != r2.result.value.addr
            && r1.result.value.cls == r2.result.value.cls == v
            && r2.world.specializerCalls == w.specializerCalls
  {
  }

  /** A client issuing construction requests one after the other. */
  function RunAll(w: World, reqs: seq<(ClassKind, Args)>, specialize: Specializer): (w': World)
    decreases |reqs|
  {
    if reqs == [] then w
    else RunAll(Construct(w, reqs[0].0, reqs[0].1, specialize).world, reqs[1..], specialize)
  }

  /** The argument tuples of the requests addressed to the generic class, in order. */
  function GenericRequests(reqs: seq<(ClassKind, Args)>): (r: seq<Args>)
  {
    if reqs == [] then []
    else (if reqs[0].0.Unspecialized? then [reqs[0].1] else []) + GenericRequests(reqs[1..])
  }

  /** No re-specialization: the specializer runs once per request to the generic class,
      with that request's arguments, and never for a request to a specialized class. */
  lemma {:induction false} SpecializerRunsOncePerGenericRequest(w: World, reqs: seq<(ClassKind, Args)>, specialize: Specializer)
    ensures RunAll(w, reqs, specialize).specializerCalls == w.specializerCalls + GenericRequests(reqs)
    decreases |reqs|
  {
    if reqs != [] {
      var w1 := Construct(w, reqs[0].0, reqs[0].1, specialize).world;
      SpecializerRunsOncePerGenericRequest(w1, reqs[1..], specialize);
    }
  }

  /** Requests that only name specialized classes never reach the specializer. */
  lemma SpecializedOnlyNeverSpecializes(w: World, reqs: seq<(ClassKind, Args)>, specialize: Specializer)
    requires forall i :: 0 <= i < |reqs| ==> reqs[i].0.Specialized?
    ensures RunAll(w, reqs, specialize).specializerCalls == w.specializerCalls
  {
    SpecializerRunsOncePerGenericRequest(w, reqs, specialize);
    NoGenericRequests(reqs);
  }

  lemma {:induction false} NoGenericRequests(reqs: seq<(ClassKind, Args)>)
    requires forall i :: 0 <= i < |reqs| ==> reqs[i].0.Specialized?
    ensures GenericRequests(reqs) == []
  {
    if reqs != [] {
      NoGenericRequests(reqs[1..]);
    }
  }

  // What the routing relies on the specializer for.

  /** Every cached class is a subclass of the generic class `g`, and the cache is a dictionary. */
  ghost predicate CacheValid(c: Cache, g: GenericClass) {
    && Valid(c)
    && forall v :: v in c.entries.Values ==> IsSubclass(v, g)
  }

  ghost predicate StoreValid(st: Store, g: GenericClass) {
    CacheValid(st.cache, g)
  }

  /** The specializer only adds to its cache: earlier keys keep their class. Nothing
      is promised about the iteration order, which may change as the cache grows. */
  ghost predicate CacheGrows(c: Cache, c': Cache) {
    forall k :: k in c.entries ==> k in c'.entries && c'.entries[k] == c.entries[k]
  }

  /** A reply that keeps the store valid and the cache growing and, on success,
      returns a fresh object of a cached class initialised with the arguments. */
  ghost predicate HonestReply(g: GenericClass, st: Store, args: Args, reply: Reply) {
    && StoreValid(reply.store, g)
    && CacheGrows(st.cache, reply.store.cache)
    && st.nextAddr <= reply.store.nextAddr
    && (reply.result.Ok? ==>
          && reply.result.value.cls in reply.store.cache.entries.Values
          && reply.result.value.args == args
          && st.nextAddr <= reply.result.value.addr < reply.store.nextAddr)
  }

  ghost predicate SpecializerContract(g: GenericClass, specialize: Specializer) {
    forall st: Store, args: Args :: StoreValid(st, g) ==> HonestReply(g, st, args, specialize(st, args))
  }

  /** A request addressed to the generic class `g` or to one of its specializations. */
  predicate Targets(kind: ClassKind, g: GenericClass) {
    match kind
    case Unspecialized(h) => h == g
    case Specialized(v) => IsSubclass(v, g)
  }

  /** Subtype preservation: whichever path builds it, a constructed object is an
      instance of the generic class; the store stays valid and the cache only grows. */
  lemma ConstructKeepsInvariant(g: GenericClass, w: World, kind: ClassKind, args: Args, specialize: Specializer)
    requires SpecializerContract(g, specialize) && StoreValid(w.store, g) && Targets(kind, g)
    ensures var r := Construct(w, kind, args, specialize);
            && StoreValid(r.world.store, g)
            && CacheGrows(w.store.cache, r.world.store.cache)
            && w.store.nextAddr <= r.world.store.nextAddr
            && (r.result.Ok? ==> IsInstance(r.result.value, g) && r.result.value.args == args)
  {
    if kind.Unspecialized? {
      assert HonestReply(g, w.store, args, specialize(w.store, args));
    }
  }

  /** Enumeration completeness: after the generic class builds an object, its class
      is listed by `specializations` and `C[attrs]` finds a subclass of `C`. */
  lemma ConstructedClassIsListed(g: GenericClass, w: World, args: Args, specialize: Specializer)
    requires SpecializerContract(g, specialize) && StoreValid(w.store, g)
    ensures var r := Construct(w, Unspecialized(g), args, specialize);
            r.result.Ok? ==>
              && r.result.value.cls in Specializations(r.world.store.cache)
              && GetItem(r.world.store.cache, r.result.value.cls.attrs).Found?
              && IsSubclass(GetItem(r.world.store.cache, r.result.value.cls.attrs).cls, g)
  {
    var r := Construct(w, Unspecialized(g), args, specialize);
    ConstructKeepsInvariant(g, w, Unspecialized(g), args, specialize);
    if r.result.Ok? {
      assert HonestReply(g, w.store, args, specialize(w.store, args));
      SpecializationsAreValues(r.world.store.cache, r.result.value.cls);
    }
  }

  /** With one class per attribute dictionary (the specializer's guarantee),
      `C[attrs]` is exactly the class of the object just built. */
  lemma ConstructedClassIsLookedUp(g: GenericClass, w: World, args: Args, specialize: Specializer)
    requires SpecializerContract(g, specialize) && StoreValid(w.store, g)
    ensures var r := Construct(w, Unspecialized(g), args, specialize);
            r.result.Ok? && UniqueSignatures(Specializations(r.world.store.cache)) ==>
              GetItem(r.world.store.cache, r.result.value.cls.attrs) == Found(r.result.value.cls)
  {
    var r := Construct(w, Unspecialized(g), args, specialize);
    ConstructedClassIsListed(g, w, args, specialize);
    if r.result.Ok? && UniqueSignatures(Specializations(r.world.store.cache)) {
      LookupExact(Specializations(r.world.store.cache), r.result.value.cls.attrs, r.result.value.cls);
    }
  }

  /** With one class per attribute dictionary, a specialization once found stays
      the answer as the cache grows, whatever the new iteration order. */
  lemma LookupStableUnderGrowth(c: Cache, c': Cache, key: Signature)
    requires Valid(c) && Valid(c') && CacheGrows(c, c')
    requires UniqueSignatures(Specializations(c'))
    ensures GetItem(c, key).Found? ==> GetItem(c', key) == GetItem(c, key)
  {
    if GetItem(c, key).Found? {
      var v := GetItem(c, key).cls;
      var k :| k in c.entries && c.entries[k] == v;
      assert c'.entries[k] == v;
      SpecializationsAreValues(c', v);
      LookupExact(Specializations(c'), key, v);
    }
  }
}
