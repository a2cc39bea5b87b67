# Autojit class dispatch, modelled in Dafny

This project models the metaclass layer of numba's autojit classes
(`numba/exttypes/autojitmeta.py`). A class decorated with `@autojit` becomes an
*unspecialized* class. Calling it hands the constructor arguments to the class
specializer. The specializer infers attribute types, compiles or reuses a
*specialized* subclass, and instantiates it. `C[attrs]` looks up the
specialized subclass whose attribute dictionary equals `attrs`. A specialized
class gets its own metaclass. Its `__call__` is `type.__call__`, so building an
object of a specialized class never goes back through the specializer.

Modules:

- `AutojitTypes` (`autojit_types.dfy`): attribute types, signatures
  (`map<string, AttrType>`), the generic class, specialized classes
  (`Variant`, with an explicit `base` standing for the subclass relation),
  arguments and instances.
- `SpecializerCache` (`specializer_cache.dfy`): the specializer's
  `funccache.specializations`, a dictionary from argument types to
  specialized classes. Its iteration order is arbitrary and is given as a
  sequence of keys. Also the `specializations` view over its values.
- `AutojitLookup` (`autojit_lookup.dfy`): `__getitem__` as a linear first-match
  scan that ends in `Found(cls)` or `KeyError(key)`.
- `AutojitDispatch` (`autojit_dispatch.dfy`): `AutojitMeta.__call__`,
  `SpecializedMeta.__call__` and routing by metaclass.
  - The specializer is a function parameter.
  - `World` keeps a trace of every argument tuple the specializer was called
    with. Only the statements use it.
  - `SpecializerContract` states what the routing relies on the specializer
    for. The demo's subclass and instance facts are proved from it.
- `ExampleSpecializer` (`example_specializer.dfy`): a stand-in specializer
  built on an abstract type-inference function.
  - It is proved to meet the contract, so the contract can be met.
  - It carries the module's `__main__` demonstration, `C(10.0)` followed by
    `C[{'value': double}]`.

`__getitem__` does not index the cache by attribute dictionary. It scans the
cached classes and compares each class's attribute dictionary with the key. The
dictionary is keyed by what the specializer caches on, modelled as argument
types. So several cached classes may share one attribute dictionary, and lookup
then returns the first one in iteration order (`LookupReturnsFirst`). "One class
per attribute dictionary" is the predicate `UniqueSignatures`. It is a
hypothesis only where a statement needs it (`LookupExact`,
`LookupOrderIrrelevant`, `ConstructedClassIsLookedUp`,
`LookupStableUnderGrowth`). The model never assumes it globally.

## Model

| member | source | states |
|---|---|---|
| `AutojitLookup.Lookup` | numba/exttypes/autojitmeta.py:35-40 | a returned class is one of the scanned classes and its attribute dictionary equals the key exactly; `KeyError` carries the key and is raised only when no scanned class has that attribute dictionary |
| `AutojitLookup.LookupReturnsFirst` | numba/exttypes/autojitmeta.py:35-38 | when several classes match, the scan returns the first match in iteration order |
| `AutojitLookup.FoundIsFirst` | numba/exttypes/autojitmeta.py:35-38 | the converse: whatever the scan returns sits at a position with no match before it |
| `AutojitLookup.LookupExact` | numba/exttypes/autojitmeta.py:35-40 | with one class per attribute dictionary, lookup returns `v` iff `v` is cached with attribute dictionary equal to the key (no subset or superset match), and raises `KeyError(key)` iff no cached class has it |
| `AutojitLookup.LookupOrderIrrelevant` | numba/exttypes/autojitmeta.py:35-44 | with one class per attribute dictionary, two iteration orders of the same cached classes give the same lookup result |
| `AutojitLookup.LookupExtend` | numba/exttypes/autojitmeta.py:35-38 | appending classes to the scanned sequence changes the result only when the original sequence had no match |
| `AutojitLookup.LookupPrefixStable` | numba/exttypes/autojitmeta.py:35-38 | a hit on a prefix of the iteration order is also the hit on the whole sequence |
| `AutojitLookup.GetItem` | numba/exttypes/autojitmeta.py:32-44 | `C[key]` over the cache: a found class is one of the cache's values and has exactly the requested attribute dictionary; `KeyError(key)` is raised iff no cached value has it |
| `SpecializerCache.Specializations` | numba/exttypes/autojitmeta.py:42-44 | the view lists one class per dictionary key, in the dictionary's iteration order |
| `SpecializerCache.SpecializationsAreValues` | numba/exttypes/autojitmeta.py:42-44 | a class is listed by `specializations` iff it is one of the cache's values |
| `AutojitDispatch.AutojitCall` | numba/exttypes/autojitmeta.py:29-30 | calling the generic class returns exactly what the specializer returns for the same arguments (result and new cache), and records exactly one specializer invocation with those arguments |
| `AutojitDispatch.SpecializedCall` | numba/exttypes/autojitmeta.py:61-63 | `type.__call__` on a specialized class yields a fresh object of exactly that class, initialised with the given arguments, and leaves the cache alone |
| `AutojitDispatch.Construct` | numba/exttypes/autojitmeta.py:29-63 | a call on the generic class is the specializer path; a call on a specialized class succeeds with an object of that class, leaves the cache unchanged and records no specializer invocation |
| `AutojitDispatch.SpecializedIgnoresSpecializer` | numba/exttypes/autojitmeta.py:53-63 | the outcome of calling a specialized class is the same whatever the specializer is, so it is never consulted |
| `AutojitDispatch.DirectConstructionTwice` | numba/exttypes/autojitmeta.py:61-63 | calling a specialized class twice with equal arguments gives two distinct objects of that class and no specializer invocation |
| `AutojitDispatch.SpecializerRunsOncePerGenericRequest` | numba/exttypes/autojitmeta.py:52-63 | over any sequence of construction requests, the specializer's invocations are exactly the generic-class requests' arguments, in order: no re-specialization |
| `AutojitDispatch.SpecializedOnlyNeverSpecializes` | numba/exttypes/autojitmeta.py:53-63 | requests that only name specialized classes never invoke the specializer |
| `AutojitDispatch.ConstructKeepsInvariant` | numba/exttypes/autojitmeta.py:76-83 | under the specializer's contract, an object built through either path is an instance of the generic class; the cache stays valid and only grows |
| `AutojitDispatch.ConstructedClassIsListed` | numba/exttypes/autojitmeta.py:42-44 | after the generic class builds an object, its class is listed by `specializations`, and looking up its attribute dictionary finds a subclass of the generic class |
| `AutojitDispatch.ConstructedClassIsLookedUp` | numba/exttypes/autojitmeta.py:79-82 | with one class per attribute dictionary, `C[attrs]` after `C(...)` is exactly the built object's class |
| `AutojitDispatch.LookupStableUnderGrowth` | numba/exttypes/autojitmeta.py:32-44 | with one class per attribute dictionary, once `C[key]` finds a class, later growth of the cache (old keys keep their class, iteration order free to change) does not change the answer |
| `ExampleSpecializer.Specialize` | numba/exttypes/autojitmeta.py:14-20 | the stand-in specializer replies honestly. An inference error is returned unchanged with the store untouched. Known argument types reuse the cached class and leave the cache unchanged. New argument types cache a new subclass with the inferred attribute dictionary |
| `ExampleSpecializer.SpecializerIsHonest` | numba/exttypes/autojitmeta.py:14-20 | the stand-in meets the contract the routing relies on |
| `ExampleSpecializer.AutojitDemo` | numba/exttypes/autojitmeta.py:76-83 | after `obj = C(10.0)`: `obj` is an instance of `C`. `C[{'value': double}]` is `type(obj)`, a subclass of `C`. `C[{'value': long}]` raises `KeyError`. The specializer ran once, and calling the specialized class afterwards does not run it again |
| `ExampleSpecializer.SameTypesReuseClass` | numba/exttypes/autojitmeta.py:53-58 | a second generic call whose arguments infer the same typing reuses the cached class, leaves the cache unchanged and yields a distinct object |

## Left out

- Python metaclass mechanics are not modelled: mixing `type(py_class)` into the metaclass, the MRO, and rebuilding the class from its name, bases and namespace (autojitmeta.py:22, 47-49, 61). The subclass relation is the explicit `base` field of a specialized class. Metaclass resolution is the `ClassKind` tag.
- `NumbaSpecializingWrapper`, its type inference and its compilation are not part of this model. The specializer is a parameter, bound only by `SpecializerContract`. `ExampleSpecializer` is a stand-in, not a model of numba's specializer.
- How attribute tables and `exttype` are built is not modelled. A specialized class carries its attribute dictionary directly.
- SpecializedCall: does not model the class's own `__new__`/`__init__` bodies or exceptions they raise; the object records the arguments it was initialised with.
- Construct: a call on a specialized class always succeeds, because exceptions from the class's own `__init__` are not modelled.
- Python 2 dictionary iteration order is arbitrary and may change when the dictionary grows. The model takes the current order as a given sequence (`Cache.order`) and promises nothing about how it changes. Lookup is proved independent of it only when signatures are unique. Without that, `C[key]` may name a different class after the cache grows.
- A `World` models one autojit class: one specializer and one cache. In the source each class has its own `class_specializer` closure (autojitmeta.py:14, 29-30). `Construct` sends every `Unspecialized` request to the specializer it is given. The lemmas about the contract require, through `Targets`, that the request names the generic class that specializer belongs to.
- The `isinstance(key, dict)` assertion is enforced by the type of the key (`map<string, AttrType>`). A non-dict key cannot be expressed.
- The demonstration's printing and `from numba import *` are left out. Only its asserted facts are kept, in `AutojitDemo`.
- Concurrent calls into the specializer are not modelled. The source does nothing about them.
