# Weak forms for deal.II: integration domains, linear forms and the AD/SD functor cache

This project is a Dafny model of three small parts of the weak-form layer of the
"Weak forms for deal.II" library:

- **Integration-domain wrappers** (`symbolic_integral.dfy`, module `SymbolicIntegrals`).
  A volume, boundary or interface integral stores a set of sub-domain ids: material ids,
  boundary ids or manifold ids. An empty set means "the entire domain". So does a set
  holding only the invalid id `SubDomainType(-1)`. For the 32-bit unsigned id types that
  id is 2^32 - 1, and the model writes the wrap-around out (`ToSubdomainId`). A volume
  integral admits a cell by its material id. A boundary integral admits only faces at
  the boundary, by their boundary id. An interface integral admits only interior faces,
  by their manifold id. Wrapping an integrand gives the symbolic integral node. That
  node asks for the integrand's update flags plus `update_JxW_values`. Its vectorised
  evaluator fills a batch lane by lane, and a lane is written only when its quadrature
  point exists.
- **LinearForm** (`linear_forms.dfy`, module `LinearForms`). It is an immutable
  (test function, functor) pair. It renders as `"(" + test + ", " + functor + ")"` in
  ASCII and as brace, test, multiply symbol, functor, brace in LaTeX. Its update flags
  are the union of its parts' flags. `dV`, `dA` and `dI` wrap it in a volume, boundary
  or interface integral: over the entire domain, over a set of ids, or over one id,
  which means the one-element set.
- **AD_SD_Functor_Cache** (`ad_sd_functor_cache.dfy`, module `FunctorCache`). It is a
  class with per-worker slots and a persistent cache. `Initialize` registers the
  persistent cache with a scratch data object's `GeneralDataStorage`. It inserts a
  reference and a flag under two fixed names. The model's storage inserts an entry
  only under a name not yet taken (see "Left out" for the library's behaviour).
  `GetCache` routes to the registered cache when the flag is present. Otherwise it
  routes to the scratch storage itself. `GetDestinationCache` always returns the
  scratch storage.

The children of a form (test functions, functors, integrals) are opaque
`Operands.Operand` values. Each carries its kind, its ASCII and LaTeX renderings, and its
update flags as a `set<Flag>`. Bitwise OR of the library's `UpdateFlags` becomes set
union. JxW values are opaque inputs (`FEValues<V>`).

The source's own comment on the id set (`include/weak_forms/symbolic_integral.h:107-111`)
says that the invalid index `SubDomainType(-1)` also indicates the entire domain. The test
at `include/weak_forms/symbolic_integral.h:53-54` accepts it only as the sole element
(`size() == 1`). The model follows the test, so the sentinel together with another id is
an ordinary id (`SentinelWithOtherIdIsRestricted`).

## Model

| member | source | states |
|---|---|---|
| `SymbolicIntegrals.ToSubdomainId` | include/weak_forms/symbolic_integral.h:52 | converting a signed value to the unsigned id type gives the id congruent to it modulo 2^32 |
| `SymbolicIntegrals.InvalidIndexIsLargestId` | include/weak_forms/symbolic_integral.h:52 | the sentinel `SubDomainType(-1)` is the largest id, 2^32 - 1 |
| `SymbolicIntegrals.Integral.IntegrateOverEntireDomain` | include/weak_forms/symbolic_integral.h:49-55 | the entire domain is integrated exactly when the id set is empty or is exactly {sentinel} |
| `SymbolicIntegrals.Integral.IntegrateOnSubdomain` | include/weak_forms/symbolic_integral.h:114-121 | an id is admitted exactly when the set is empty, is {sentinel}, or contains the id |
| `SymbolicIntegrals.Integral.IntegrateOnCell` | include/weak_forms/symbolic_integral.h:175-180 | a volume integral admits a cell exactly when its material id is admitted |
| `SymbolicIntegrals.Integral.IntegrateOnBoundaryFace` | include/weak_forms/symbolic_integral.h:234-243 | a boundary integral admits a face exactly when it is at the boundary and its boundary id is admitted |
| `SymbolicIntegrals.Integral.IntegrateOnInterfaceFace` | include/weak_forms/symbolic_integral.h:297-308 | an interface integral admits a face exactly when it is interior and its manifold id is admitted; the neighbour face plays no part |
| `SymbolicIntegrals.DefaultVolumeIntegral` | include/weak_forms/symbolic_integral.h:141-143 | the default volume integral covers the entire domain and admits every cell |
| `SymbolicIntegrals.DefaultBoundaryIntegral` | include/weak_forms/symbolic_integral.h:200-202 | the default boundary integral covers the entire domain and admits exactly the boundary faces |
| `SymbolicIntegrals.DefaultInterfaceIntegral` | include/weak_forms/symbolic_integral.h:263-265 | the default interface integral covers the entire domain and admits exactly the interior faces |
| `SymbolicIntegrals.SentinelWithOtherIdIsRestricted` | include/weak_forms/symbolic_integral.h:52-54 | {sentinel, other} is not the entire domain and admits only those two ids |
| `SymbolicIntegrals.EntireDomainAdmitsEveryId` | include/weak_forms/symbolic_integral.h:117-118 | over the entire domain every id is admitted |
| `SymbolicIntegrals.RestrictedIntegralAdmitsListedIds` | include/weak_forms/symbolic_integral.h:114-121 | otherwise exactly the listed ids are admitted |
| `SymbolicIntegrals.FaceIntegralsExclusive` | include/weak_forms/symbolic_integral.h:234-308 | no face is admitted by both a boundary and an interface integral, whatever their id sets |
| `SymbolicIntegrals.EntireDomainFaceIntegralsPartitionFaces` | include/weak_forms/symbolic_integral.h:234-308 | for any boundary and interface integrals over the entire domain (empty set or {sentinel}), each face is admitted by exactly one of them |
| `SymbolicIntegrals.DefaultFaceIntegralsPartitionFaces` | include/weak_forms/symbolic_integral.h:200-308 | for the default integrals, each face is admitted by exactly one of boundary and interface |
| `SymbolicIntegrals.SentinelFaceIntegralsPartitionFaces` | include/weak_forms/symbolic_integral.h:234-308 | for the {sentinel} integrals that `dA(invalid)` and `dI(invalid)` build, each face is admitted by exactly one of boundary and interface |
| `SymbolicIntegrals.SymbolicIntegral.GetUpdateFlags` | include/weak_forms/symbolic_integral.h:473-478 | the node's flags contain `update_JxW_values` and all of the integrand's flags, and nothing else |
| `SymbolicIntegrals.SymbolicIntegral.Value` | include/weak_forms/symbolic_integral.h:550-560 | requires `q_point < n_quadrature_points`; the value is the JxW value at that point |
| `SymbolicIntegrals.SymbolicIntegral.EvaluateVectorized` | include/weak_forms/symbolic_integral.h:498-560 | requires range size <= width; lane i holds the JxW value at `q_point_range[i]` when that point is below `n_quadrature_points`, and every other lane is left as it was |
| `LinearForms.MakeLinearForm` | include/weak_forms/linear_forms.h:36-55 | construction requires a well-formed pair (a test-function part and a functor that is neither test/trial-led nor an integral); the form holds exactly the two parts |
| `LinearForms.LinearForm.AsAscii` | include/weak_forms/linear_forms.h:57-62 | the rendering is "(", the test's ASCII, ", ", the functor's ASCII, ")", and each piece can be read back at a fixed position |
| `LinearForms.LinearForm.AsLatex` | include/weak_forms/linear_forms.h:64-77 | the rendering is l-brace, test LaTeX, multiply symbol, functor LaTeX, r-brace, each at a fixed position |
| `LinearForms.AsciiDeterminesFunctor` | include/weak_forms/linear_forms.h:57-62 | given the test's rendering, the form's ASCII rendering determines the functor's |
| `LinearForms.LinearForm.GetUpdateFlags` | include/weak_forms/linear_forms.h:151-155 | a flag is needed exactly when the test function or the functor needs it |
| `LinearForms.IntegratedFormUpdateFlags` | include/weak_forms/linear_forms.h:81-155 | every dV/dA/dI of a form needs exactly test flags, functor flags and `update_JxW_values` |
| `LinearForms.LinearForm.DV` | include/weak_forms/linear_forms.h:81-86 | `dV()` is a volume integral of this form with the empty set, admitting every cell |
| `LinearForms.LinearForm.DVOn` | include/weak_forms/linear_forms.h:88-94 | `dV(s)` equals `dV({s})` and admits the cells of material s, or every cell when s is the sentinel |
| `LinearForms.LinearForm.DVOver` | include/weak_forms/linear_forms.h:96-101 | `dV(set)` is a volume integral of this form over that set, admitting cells by material id |
| `LinearForms.LinearForm.DA` | include/weak_forms/linear_forms.h:103-108 | `dA()` is a boundary integral of this form with the empty set, admitting exactly the boundary faces |
| `LinearForms.LinearForm.DAOn` | include/weak_forms/linear_forms.h:110-116 | `dA(b)` equals `dA({b})` and admits boundary faces with id b, or all boundary faces when b is the sentinel |
| `LinearForms.LinearForm.DAOver` | include/weak_forms/linear_forms.h:118-123 | `dA(set)` is a boundary integral of this form over that set, admitting boundary faces by boundary id |
| `LinearForms.LinearForm.DI` | include/weak_forms/linear_forms.h:125-130 | `dI()` is an interface integral of this form with the empty set, admitting exactly the interior faces |
| `LinearForms.LinearForm.DIOn` | include/weak_forms/linear_forms.h:132-138 | `dI(m)` equals `dI({m})` and admits interior faces with manifold id m, or all interior faces when m is the sentinel |
| `LinearForms.LinearForm.DIOver` | include/weak_forms/linear_forms.h:140-147 | `dI(set)` is an interface integral of this form over that set, admitting interior faces by manifold id |
| `FunctorCache.AddUnique` | include/weak_forms/ad_sd_functor_cache.h:73-76 | an add_unique insertion adds the name, keeps every existing entry, and stores the new entry only under an unused name |
| `FunctorCache.GeneralDataStorage.AddUniqueReference` | include/weak_forms/ad_sd_functor_cache.h:73-74 | the storage's contents become `AddUnique` of a reference to the given storage |
| `FunctorCache.GeneralDataStorage.AddUniqueCopy` | include/weak_forms/ad_sd_functor_cache.h:75-76 | the storage's contents become `AddUnique` of a copy of the given flag value |
| `FunctorCache.LookupStorage` | include/weak_forms/ad_sd_functor_cache.h:88-89 | the lookup succeeds exactly when the name holds a reference, and it then returns the referenced storage |
| `FunctorCache.GeneralDataStorage.GetStorageWithName` | include/weak_forms/ad_sd_functor_cache.h:88-89 | the result is `LookupStorage` of the current contents |
| `FunctorCache.AdSdCacheName` | include/weak_forms/ad_sd_functor_cache.h:141-145 | the cache key ends in "AD_SD_Functor_Cache" |
| `FunctorCache.AdSdCacheFlagName` | include/weak_forms/ad_sd_functor_cache.h:153-157 | the flag key is the cache key followed by "_Flag", so the two keys differ |
| `FunctorCache.Registered` | include/weak_forms/ad_sd_functor_cache.h:68-76 | registering adds exactly the two keys, keeps every existing entry, references the cache when the cache key was free, and stores the flag `true` when the flag key was free |
| `FunctorCache.SelectedCache` | include/weak_forms/ad_sd_functor_cache.h:79-113 | without the flag, lookups go to the scratch storage; with it, they go to the storage referenced under the cache key |
| `FunctorCache.RegisteredRoutesToUserCache` | include/weak_forms/ad_sd_functor_cache.h:68-90 | after registering a cache under a free key, the flag is stored and lookups reach that cache |
| `FunctorCache.RegisterIsIdempotent` | include/weak_forms/ad_sd_functor_cache.h:73-76 | registering a second time, with the same or another cache, leaves the storage unchanged |
| `FunctorCache.FirstRegistrationWins` | include/weak_forms/ad_sd_functor_cache.h:68-90 | after two registrations, lookups reach the cache registered first |
| `FunctorCache.AdSdFunctorCache.constructor` | include/weak_forms/ad_sd_functor_cache.h:50-55 | `queue_length` slots, all locks false, each slot a fresh empty storage of its own, and a fresh empty persistent cache |
| `FunctorCache.AdSdFunctorCache.QueueLength` | include/weak_forms/ad_sd_functor_cache.h:129-132 | the queue length equals the number of lock and storage slots |
| `FunctorCache.AdSdFunctorCache.HasUserCache` | include/weak_forms/ad_sd_functor_cache.h:159-175 | when no flag is stored, lookups go to the scratch storage itself |
| `FunctorCache.AdSdFunctorCache.Initialize` | include/weak_forms/ad_sd_functor_cache.h:57-77 | with no cache the scratch storage is unchanged; with one, the storage becomes `Registered(old contents, cache)` and a user cache is reported |
| `FunctorCache.AdSdFunctorCache.GetCache` | include/weak_forms/ad_sd_functor_cache.h:79-113 | the result is `SelectedCache` of the scratch storage; with no user cache it is the scratch storage |
| `FunctorCache.AdSdFunctorCache.GetDestinationCache` | include/weak_forms/ad_sd_functor_cache.h:115-127 | always the scratch data's own storage |

## Left out

- `include/weak_forms/cell_face_subface_operators.h` (the `Normal` operand) is not part of this model. It is a thin wrapper over the finite-element library with no logic of its own to state.
- The tests under `tests/weak_forms/` are not part of this model. They exercise floating-point tensor algebra, automatic differentiation and unary operators defined in headers outside this model.
- Rendering through `SymbolicDecorations` is left out: `Integral::as_ascii`/`as_latex`, `get_subdomain_as_*`, `get_symbol_*`, `get_infinitesimal_symbol_*` and the node's `as_ascii`/`as_latex`. The naming tables and `get_comma_separated_string_from` are outside this model. A form's children carry their already-decorated strings.
- `LinearForms.LinearForm.AsLatex`: the braces and the multiply symbol are inputs (`LatexSymbols`). The braces are the fixed strings `Utilities::LaTeX::l_square_brace()` and `r_square_brace()`, the same for every form. The multiply symbol is `get_symbol_multiply` of the number of indices that `FullIndexContraction` finds contracted between the test function and the functor. Both helpers are outside this model.
- `LinearForms.MakeLinearForm`: the type traits `is_or_has_test_function_op` and `is_valid_form_functor` are outside this model. They are approximated by the operand's kind: the test part leads with a test function, and the functor leads with neither a test function nor a trial solution.
- The `linear_form(...)` convenience overloads (`linear_forms.h:184-238`) are left out. The scalar and tensor ones wrap constants in constant functors, which are outside this model. The functor one is `MakeLinearForm`.
- The node's `static_assert(!is_integral_op<Integrand>)` is not expressed. The node is generic in its integrand, and nested integration is excluded where forms are built (`MakeLinearForm`).
- Simple forwarding accessors are the datatype's fields, with no member of their own: the node's `integrate_over_entire_domain`, `get_integral_operation` and `get_integrand`; `integrate(integrand, integral)`; and `VolumeIntegral::integrate` and its siblings. The same holds for `LinearForm::get_test_space_operation` and `get_functor`.
- The whole-vector `operator()` that returns `get_JxW_values()` is the `jxwValues` field. The single-point `operator()` is `SymbolicIntegral.Value`, whose `q_point < n_quadrature_points` assertion is its precondition.
- The `FEInterfaceValues` overloads are the same code as the `FEValuesBase` ones, and `FEValues<V>` stands for both. The const and non-const overloads of `get_cache`, `get_destination_cache` and `has_user_cache` are likewise modelled once.
- The debug `Assert`s (range size at most the width, quadrature index in range) become preconditions. The floating-point type of the JxW values and the template `ScalarType` are a type parameter.
- The default `queue_length` of `2 * MultithreadInfo::n_threads()` is left out. The queue length is a constructor argument.
- `get_name_ad_sd_source_cache` is left out. Nothing uses it, and as written it applies `+` to a function rather than to its result.
- The per-slot `source_lock` and `source_cache` are modelled only in their sizing at construction. Nothing in `ad_sd_functor_cache.h` reads or writes them, and their purpose is concurrent assembly, which is not modelled.
- `Operators::internal::get_deal_II_prefix()` is outside this model, so `DealIIPrefix` is a stand-in value. No property proved depends on it.
- `GeneralDataStorage` is deal.II's class and is outside this model. The model's `add_unique_*` inserts an entry only when the name is absent, and leaves the storage unchanged otherwise. `get_object_with_name` on a missing name or an entry of another type is an error result (`LookupError`), not an exception.
- `FunctorCache.LookupStorage`: deal.II's `get_object_with_name<T>` also returns an object that was stored by copy. `Entry` has no case for a copied storage (only references, bool copies and other objects), so the model cannot express a cache stored by copy; the registration path stores the cache only by reference.
- `FunctorCache.AddUnique`: deal.II's `add_unique_reference` and `add_unique_copy` throw (`ExcNameHasBeenFound`) when the name is already in use; the model replaces that error path by insert-if-absent. So in the library a second `initialize` on the same scratch data (`include/weak_forms/ad_sd_functor_cache.h:73`) throws. `FunctorCache.RegisterIsIdempotent` and `FunctorCache.FirstRegistrationWins` hold of the model's storage only.
- `LinearForms.LinearForm`: the datatype constructor itself admits ill-formed pairs, which the source's `static_assert`s rule out at compile time. Every integration member (`DV`, `DA`, `DI` and their overloads) requires `IsWellFormed()` instead.
- `FunctorCache.AdSdFunctorCache.QueueLength` states the slot count under the class invariant `Valid()`, which the constructor establishes. No member of `AD_SD_Functor_Cache` changes the slots after construction.
