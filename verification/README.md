# Type-erased callable wrappers, modelled in Dafny

This project models the core of a C++ library of type-erased callable wrappers. The library has four parts:

- `move_only_function<S>` and `copyable_function<S>` (inc/copyable_function.hpp), the owning wrappers of the C++ proposal P2548.
- The older owning wrapper `ptl::function<S>` (inc/function.hpp).
- The non-owning `function_ref<S>` (inc/function_ref.hpp).

The model has three layers.

- **Signature classifier.** `S` is a signature `R(Args...) [const] [&|&&] [noexcept]`. Each wrapper decides whether it accepts a callable type by asking whether that type's call operators can be invoked on an object expression of a given constness and value category. `Qualifiers` models that question: the implicit-object-parameter rule of overload resolution.
  - `Traits` holds the twelve `traits` specialisations, the `invoker`, `is_callable_from` and `function_call` of copyable_function.hpp.
  - `PtlTraits` is the function.hpp counterpart.
  - `Matrix` reproduces the 144-entry constructibility table of the test suite.
- **Storage and managers.**
  - `Storage` replaces the untagged `storage_t` union with a tagged cell: `Vacant`, an inline object, or a pointer into an explicit heap map. It also provides the heap itself and a leak-freedom predicate: every live heap object is owned by exactly one cell.
  - `Manager` models `owning_manage` / `nop_manage` under the four `mode`s and the vtable's thin wrappers. It also holds the cell-level steps of copy assignment and of `T{...}.swap(*this)`.
- **Wrapper objects.** `Owning` (both P2548 wrappers) and `PtlFunction` (the older one) act on a world of live wrapper objects addressed by identity, plus the shared heap.
  - Every constructor, assignment, swap, conversion and destructor is a pure function from world to world.
  - Each one preserves the class invariant and leak-freedom, and says what happens to every wrapper it does not name.
  - `Arguments` describes what a converting constructor sees of its argument.
  - `FunctionRef` models the non-owning reference as a (pointer, dispatch) pair.

Exceptions are an `Err` result. Whether an operation that can throw does throw is a boolean parameter `fails`. It is consulted in two places: a copy of a target whose copy is not known to be nothrow, and the construction of a new target (T's constructor or `new T{...}`).

## Model

| member | source | states |
|---|---|---|
| Qualifiers.ExprOf | inc/copyable_function.hpp:175-189 | `declval<Q>()` keeps Q's constness and is an lvalue exactly when Q is an lvalue reference |
| Qualifiers.Resolve | inc/copyable_function.hpp:175-189 | overload resolution on the implicit object parameter returns the unique best viable call operator, and None exactly when no operator is best |
| Qualifiers.BestIsUnique | inc/copyable_function.hpp:175-189 | the "better conversion" relation is asymmetric, so at most one operator is best |
| Qualifiers.InvocableIffBestUsable | inc/copyable_function.hpp:175-189 | `is_(nothrow_)invocable` holds iff some best viable operator exists, is not deleted and (if asked) is noexcept |
| Qualifiers.SingleOverloadInvocable | inc/copyable_function.hpp:175-189 | a lone operator is invocable on e iff it binds e, is not deleted, and is noexcept when nothrow is asked |
| Qualifiers.NothrowImpliesInvocable | inc/copyable_function.hpp:183-189 | the nothrow check accepts only what the plain check accepts |
| Traits.FormsAreTriples | inc/copyable_function.hpp:192-301 | the twelve specialisations correspond one-to-one to (const, ref, noexcept) triples |
| Traits.TraitsFollowQualifiers | inc/copyable_function.hpp:192-301 | every specialisation's `quals`, `inv_quals`, nothrow check and invoker flags follow from its triple; `inv_quals` turns "no ref" into `&` |
| Traits.InvokerMatchesCallQuals | inc/copyable_function.hpp:145-168 | the invoker calls the stored object in exactly the category `inv_quals` names, and its dispatch pointer is noexcept iff the signature is |
| Traits.IsCallableFromIsAccepts | inc/copyable_function.hpp:453-456 | `is_callable_from<VT>` is invocability under both `quals` and `inv_quals`, nothrow for noexcept signatures |
| Traits.NoexceptAcceptsFewer | inc/copyable_function.hpp:175-189 | a noexcept signature accepts only callables its throwing counterpart accepts |
| Traits.AcceptsSingleOverload | inc/copyable_function.hpp:540-543 | closed form of acceptance for a one-operator callable: not deleted, noexcept/const as the signature demands, and a ref-qualifier binding every category used |
| Traits.ExactCallableAccepted | inc/copyable_function.hpp:540-543 | a callable whose operator carries exactly the signature's qualifiers is accepted |
| Traits.CallOperatorCarriesSignature | inc/copyable_function.hpp:304-401 | each wrapper's single call operator has the signature's qualifiers, so a wrapper accepts a wrapper of the same signature |
| PtlTraits.PtlTraitsDecompose | inc/function.hpp:36-133 | the older traits hold exactly each signature's (const, noexcept, refness) |
| PtlTraits.AddQualsAgreeWithTraits | inc/function.hpp:188-195 | `add_quals`/`add_inv_quals` coincide with `quals`/`inv_quals` of copyable_function.hpp on all twelve forms |
| PtlTraits.IsCallableFromAgrees | inc/function.hpp:255-259 | `ptl::function` accepts exactly what the P2548 wrappers accept for the same signature |
| PtlTraits.OneCallOperatorEnabled | inc/function.hpp:310-321 | of the six guarded call operators exactly one is enabled per signature, with the signature's own qualifiers, and the wrapper is callable as its signature requires |
| Matrix.DeletedRvaluePair | test/copyable_function.cpp:372-387 | a `const &` operator beside a deleted `const &&` one is invocable on lvalues only |
| Matrix.SingleEntry | test/copyable_function.cpp:311-495 | each one-operator matrix entry equals the closed-form acceptance |
| Matrix.PairEntry | test/copyable_function.cpp:465-480 | the paired-operator functors are accepted exactly by the `&`-qualified forms whose noexcept they honour |
| Matrix.Row0 | test/copyable_function.cpp:312-324 | functor0 (`()`) gets the expected twelve `is_constructible` answers |
| Matrix.Row1 | test/copyable_function.cpp:327-339 | functor1 (`() &`) gets the expected twelve answers |
| Matrix.Row2 | test/copyable_function.cpp:342-354 | functor2 (`() &&`) gets the expected twelve answers |
| Matrix.Row3 | test/copyable_function.cpp:357-369 | functor3 (`() const`) gets the expected twelve answers |
| Matrix.Row4 | test/copyable_function.cpp:372-387 | functor4 (`() const &` with deleted `const &&`) gets the expected twelve answers |
| Matrix.Row5 | test/copyable_function.cpp:390-402 | functor5 (`() const &&`) gets the expected twelve answers |
| Matrix.Row6 | test/copyable_function.cpp:405-417 | functor6 (`() noexcept`) gets the expected twelve answers |
| Matrix.Row7 | test/copyable_function.cpp:420-432 | functor7 (`() & noexcept`) gets the expected twelve answers |
| Matrix.Row8 | test/copyable_function.cpp:435-447 | functor8 (`() && noexcept`) gets the expected twelve answers |
| Matrix.Row9 | test/copyable_function.cpp:450-462 | functor9 (`() const noexcept`) gets the expected twelve answers |
| Matrix.Row10 | test/copyable_function.cpp:465-480 | functor10 (noexcept pair) gets the expected twelve answers |
| Matrix.Row11 | test/copyable_function.cpp:483-495 | functor11 (`() const && noexcept`) gets the expected twelve answers |
| Matrix.MatrixMatches | test/copyable_function.cpp:311-495 | all 144 `static_assert`s of the matrix hold under the binding rule |
| Storage.Alloc | inc/copyable_function.hpp:87 | `new T` places the object at an address not in use and changes no other object |
| Storage.Free | inc/copyable_function.hpp:61 | `delete` removes exactly that address from the heap |
| Manager.OwningManage | inc/copyable_function.hpp:41-74 | of the four modes only `copy` can fail, and only when T is heap-stored or its copy constructor is not noexcept; the returned flag is "copying cannot throw" |
| Manager.NopManage | inc/copyable_function.hpp:77-78 | the empty vtable's manager touches nothing and answers true |
| Manager.Manage | inc/copyable_function.hpp:92-94 | dispatch through the vtable's `manage`: errors and answer as the attached manager's |
| Manager.Destroy | inc/copyable_function.hpp:96 | `dtor` destroys the target and frees exactly the cell's heap object |
| Manager.Relocate | inc/copyable_function.hpp:97 | `destructive_move` hands the content over unchanged (the inline object or the very same pointer) and leaves the source vacant, heap untouched |
| Manager.CopyCell | inc/copyable_function.hpp:98 | `copy` fails iff it may throw and does; otherwise the new cell holds an equal object in a place of its own, the source untouched |
| Manager.NoexceptCopyable | inc/copyable_function.hpp:99 | `noexcept_copyable` answers true iff the copy cannot throw |
| Manager.NoexceptCopyableIsExact | inc/copyable_function.hpp:57 | the answer is exact: true iff every copy through the manager succeeds |
| Manager.Emplace | inc/copyable_function.hpp:81-88 | `construct`/`init_functor`: throws exactly when construction fails, leaving nothing behind; otherwise the new object is inline iff `sbo<T>` (size at most three pointers and nothrow-movable), else at a fresh heap address |
| Manager.SwapCells | inc/copyable_function.hpp:119-127 | the three destructive moves through a temporary exchange the two cells exactly and leave the heap alone |
| Manager.CopyOverDirect | inc/copyable_function.hpp:586-588 | the nothrow branch of copy assignment: the destination ends with an equal object; the heap loses the old object and gains only the new one |
| Manager.CopyOverStaged | inc/copyable_function.hpp:589-594 | the staged branch (with the relocation done by `destructive_move`): fails iff the copy may throw and does, otherwise the same result as the direct branch |
| Manager.CopyOverPathsAgree | inc/copyable_function.hpp:584-598 | when the copy succeeds, both branches yield the same cell and heap |
| Manager.CopyOver | inc/copyable_function.hpp:584-598 | copy assignment's cell step, with the staged branch relocating through `destructive_move` (corrected, see Findings): fails only for a copy that may throw, and then changes nothing |
| Manager.CopyOverAsWritten | inc/copyable_function.hpp:593 | the operator as written compiles only for a vtable declaring `move` |
| Manager.CopyAssignIsIllFormed | inc/copyable_function.hpp:584-598 | with the vtable as declared, `operator=(const copyable_function&)` is ill-formed whichever branch would run, while `destructive_move` is declared; a const lvalue source is the only one that selects this operator (Owning.OnlyConstLvaluesReachCopyAssignment) |
| Manager.Supplant | inc/copyable_function.hpp:507-511 | `T{...}.swap(*this)` plus the temporary's destruction: the wrapper ends with the new content, the old content's heap object is freed, nothing else moves |
| Arguments.NullTestAsWrittenMissesLvalues | inc/copyable_function.hpp:468-472 | the `if constexpr` null test reaches exactly the null arguments that are not lvalue pointers |
| Arguments.LvalueNullPointerSlipsThrough | inc/copyable_function.hpp:468-472 | a null function pointer held in a variable is a null argument the test lets through |
| Owning.Payload | inc/copyable_function.hpp:458-459 | a wrapper holds a target exactly when its vtable is an owning one, and of that vtable's type |
| Owning.MovedValid | inc/copyable_function.hpp:102-106 | handing a cell over to an empty or new wrapper keeps the invariant and leak-freedom and moves the payload unchanged |
| Owning.ExchangedValid | inc/copyable_function.hpp:119-127 | exchanging two wrappers' vtables and cells keeps the invariant and exchanges their payloads |
| Owning.OperatorBool | inc/copyable_function.hpp:517-518 | `operator bool` is true iff the wrapper holds a target |
| Owning.PlacementFollowsSbo | inc/copyable_function.hpp:38 | in every valid world a target is inline iff `sbo<T>`, and otherwise behind a pointer to a live heap object, so no operation ever changes a target's placement |
| Owning.EqualsNull | inc/copyable_function.hpp:524-525 | `== nullptr` is true iff the wrapper holds no target |
| Owning.DefaultConstruct | inc/copyable_function.hpp:461-462 | the default and `nullptr` constructors make an empty wrapper and allocate nothing |
| Owning.BuildCell | inc/copyable_function.hpp:464-474 | the converting constructor's new cell for a given null-test outcome: rejected iff not constructible; empty exactly when the test says null; otherwise throws iff construction fails, or holds the argument's value where `sbo` says, on fresh heap |
| Owning.ConstructCell | inc/copyable_function.hpp:464-474 | corrected null handling (see Findings): the wrapper is empty exactly for a null function or member pointer or an empty wrapper of the same template; throws iff a non-null target's construction fails |
| Owning.ConstructCellAsWritten | inc/copyable_function.hpp:468 | null handling as written: empty exactly for the arguments the undecayed `if constexpr` test reaches |
| Owning.LvalueNullPointerMakesNonEmptyWrapper | inc/copyable_function.hpp:468-473 | as written, an lvalue null function pointer yields a non-empty wrapper; corrected, an empty one |
| Owning.Construct | inc/copyable_function.hpp:551-562 | `copyable_function(F&&)` and its `move_only_function` twin, with the corrected null test (see Findings): rejected iff the constraints exclude F, the callable check fails, or a copyable target is required and missing; throws iff a non-null target's construction fails; otherwise the new wrapper holds the argument's value (empty for null arguments), and nothing else changes |
| Owning.InPlaceConstruct | inc/copyable_function.hpp:564-570 | the `in_place_type_t<T>` constructor: accepted iff the signature accepts T (and T is copyable for `copyable_function`); throws iff constructing T fails; otherwise it holds T's new value |
| Owning.HandOver | inc/copyable_function.hpp:102-106 | the destination takes the source's vtable and cell as they are; the source becomes empty; the heap is untouched |
| Owning.MoveConstruct | inc/copyable_function.hpp:582 | the move constructor transfers the payload with no allocation and always leaves the source empty |
| Owning.MoveFailsTheMovedFromTest | test/copyable_function.cpp:215-220 | for an inline target the moved-from source is empty, contrary to the test's `REQUIRE(mf3)` |
| Owning.Clear | inc/copyable_function.hpp:112 | destroying a wrapper's target frees exactly its heap object and leaves it with the empty vtable |
| Owning.MoveAssign | inc/copyable_function.hpp:108-116 | self-move-assignment changes nothing; otherwise the old target is destroyed, the source's payload moves over, and the source becomes empty |
| Owning.Swap | inc/copyable_function.hpp:637 | `swap` exchanges the two wrappers' vtables and cells exactly, heap untouched |
| Owning.SwapTwiceIsIdentity | inc/copyable_function.hpp:119-127 | swapping twice restores the world |
| Owning.NullAssign | inc/copyable_function.hpp:604-607 | `= nullptr` empties the wrapper and frees its heap object; on an empty wrapper it changes nothing |
| Owning.Assign | inc/copyable_function.hpp:609-613 | `= F` for every argument the converting constructor takes: succeeds iff construction from F does (corrected null test) and leaves the wrapper as it was when that throws; on success the wrapper holds what construction would give, the old heap object is freed, and nothing else changes. Wrapper arguments of the destination's own type go to Owning.AssignWrapper |
| Owning.DestroyWrapper | inc/copyable_function.hpp:615 | the destructor removes the wrapper and frees exactly its heap object |
| Owning.CopyConstruct | inc/copyable_function.hpp:580 | the copy constructor fails iff the copy may throw and does; otherwise the copy has the same vtable and an equal payload in storage of its own |
| Owning.CopyAssign | inc/copyable_function.hpp:584-598 | `operator=(const copyable_function&)` with the corrected staged relocation (see Findings): self-assignment changes nothing; otherwise it fails only for a throwing copy and then changes nothing; on success the destination holds an equal payload and its old heap object is freed |
| Owning.ConvertCopy | inc/copyable_function.hpp:622-628 | `operator move_only_function() const &` copies into a new `move_only_function` with the same manager, leaving the source intact |
| Owning.ConvertMove | inc/copyable_function.hpp:629-635 | `operator move_only_function() &&` moves the payload into a new `move_only_function` and leaves the source empty |
| Owning.SelectAssignment | inc/copyable_function.hpp:498-613 | overload resolution for `d = s` between wrappers of one signature: only a const `copyable_function` lvalue reaches copy assignment; a `move_only_function` accepts a `move_only_function` only as an rvalue and a `copyable_function` in every category; a `copyable_function` accepts exactly `copyable_function` sources; exactly the non-const rvalues are moved from |
| Owning.OnlyConstLvaluesReachCopyAssignment | inc/copyable_function.hpp:584-613 | between two `copyable_function`s, a const lvalue selects `operator=(const copyable_function&)`, a non-const lvalue or const rvalue is copied through `operator=(F&&)`, and a non-const rvalue is move-assigned |
| Owning.MoveOnlyTakesEveryCopyableSource | inc/copyable_function.hpp:622-635 | a `move_only_function` is assigned a `copyable_function` of its signature in every category: a non-const rvalue through `operator move_only_function() &&`, every other source by a copy through the explicit `const &` conversion |
| Owning.CopyThenSwapIn | inc/copyable_function.hpp:609-613 | `W{s}.swap(*this)` for a `copyable_function` s, W being d's class (the copy constructor, or the `const &` conversion for a `move_only_function` d): throws iff the copy may throw and does, changing nothing; otherwise d has s's vtable under its own class with an equal target, its old heap object is freed, and s and every other wrapper are untouched |
| Owning.ConvertThenSwapIn | inc/copyable_function.hpp:507-511 | `move_only_function{std::move(cf)}.swap(*this)`: d takes over cf's target under a `move_only_function` header, cf is left empty, and only d's old heap object is freed |
| Owning.AssignWrapper | inc/copyable_function.hpp:584-613 | `d = s` for a wrapper s of d's signature in any value category, with copy assignment's corrected staged relocation (see Findings; as written, a const `copyable_function` lvalue source into a `copyable_function` is ill-formed): unassignable exactly when no operator is usable; throws only on a copying route whose copy may throw, changing nothing; otherwise d ends with s's vtable and an equal target, a move empties s, and a copy leaves s alone |
| Owning.Call | inc/copyable_function.hpp:160-168 | a call invokes the target's best call operator for the `inv_quals` category; that operator is not deleted, and it is noexcept when the signature is |
| PtlFunction.PtlManage | inc/function.hpp:216-253 | the three `manage` lambdas: with a target the content moves over bit for bit; an inline T stays alive, moved-from, unless the move is destructive; without a target it is destroyed and freed; the flag is true exactly for heap targets |
| PtlFunction.Payload | inc/function.hpp:208-209 | a `ptl::function` holds a target exactly when its vtable is an owning one |
| PtlFunction.OperatorBool | inc/function.hpp:307-308 | `operator bool` is true iff the wrapper holds a target (the moved-from inline one included) |
| PtlFunction.DefaultConstruct | inc/function.hpp:261-262 | the default and `nullptr` constructors make an empty wrapper |
| PtlFunction.ConstructCell | inc/function.hpp:264-274 | corrected null handling (see Findings): the wrapper is empty exactly for a null function or member pointer however it is passed, or an empty `ptl::function` of any signature; throws iff a non-null target's construction fails |
| PtlFunction.BuildCell | inc/function.hpp:264-274 | the converting constructor's vtable and cell for a given null-test outcome: rejected iff F is the wrapper's own type or not callable; empty exactly when the test says null; otherwise throws iff construction fails, or holds the argument's value placed by `init` |
| PtlFunction.ConstructCellAsWritten | inc/function.hpp:268 | null handling as written: empty exactly for the arguments the undecayed `if constexpr` test reaches |
| PtlFunction.LvalueNullPointerMakesNonEmptyWrapper | inc/function.hpp:268-273 | as written, an lvalue null function pointer yields a non-empty `ptl::function`; corrected, an empty one |
| PtlFunction.Init | inc/function.hpp:215-242 | `init<T>` throws exactly when constructing T fails, leaving nothing; otherwise it stores T inline iff it fits three pointers and is nothrow-movable, else at a fresh heap address |
| PtlFunction.Construct | inc/function.hpp:264-274 | construction with the corrected null test (see Findings): rejected iff F is the wrapper's own type or not callable per the signature; throws iff a non-null target's construction fails; otherwise the result holds the argument's value, or is empty for null arguments |
| PtlFunction.InPlaceConstruct | inc/function.hpp:276-282 | the `in_place_type_t<T>` constructor: accepted iff the signature accepts T; throws iff constructing T fails; otherwise it holds T's new value |
| PtlFunction.MoveInto | inc/function.hpp:284 | `vptr = other.vptr; if(move) other.init_empty()`: the destination gets the payload, and the source stays non-empty, moved-from, iff its target is inline |
| PtlFunction.HandedOffValid | inc/function.hpp:232-236 | transferring a heap pointer and resetting the source keeps the invariant |
| PtlFunction.LeftBehindValid | inc/function.hpp:221-225 | an inline move leaving a moved-from object behind keeps the invariant and leak-freedom |
| PtlFunction.MoveConstruct | inc/function.hpp:284 | the move constructor leaves the source non-empty exactly when its target was inline, which is what the moved-from test expects |
| PtlFunction.Release | inc/function.hpp:288 | `dtor` destroys the target, frees its heap object and leaves the empty vtable |
| PtlFunction.MoveAssign | inc/function.hpp:286-293 | self-assignment changes nothing; otherwise the old target is freed and the source's payload moves over as in the move constructor |
| PtlFunction.Swap | inc/function.hpp:323-330 | the three destructive moves exchange the two wrappers exactly, heap untouched |
| PtlFunction.SwapTwiceIsIdentity | inc/function.hpp:323-330 | swapping twice restores the world |
| PtlFunction.NullAssign | inc/function.hpp:294-297 | `= nullptr` empties a non-empty wrapper and frees its heap object; an empty one is left alone |
| PtlFunction.Assign | inc/function.hpp:299-303 | `= F` with the corrected null test (see Findings): succeeds iff construction does, and leaves the wrapper as it was when that throws; on success it replaces the old payload and frees the old heap object |
| PtlFunction.DestroyWrapper | inc/function.hpp:305 | the destructor removes the wrapper and frees exactly its heap object |
| PtlFunction.Call | inc/function.hpp:211-213 | a call invokes the best call operator for `add_inv_quals`, not deleted, noexcept when the signature is |
| FunctionRef.RefFormsArePairs | inc/function_ref.hpp:22-84 | exactly four specialisations, one per (const, noexcept) pair; dispatch, functor and check are noexcept iff the signature is, and the functor reads const iff the signature is const |
| FunctionRef.RefFormsAreUnqualifiedForms | inc/function_ref.hpp:22-84 | the four signatures are exactly the ref-unqualified ones among the owning wrappers' twelve |
| FunctionRef.CallOperatorAlwaysConst | inc/function_ref.hpp:90-120 | the call operator is const and unqualified in every form, so any `function_ref` expression can call it; it is noexcept iff the signature is |
| FunctionRef.Construct | inc/function_ref.hpp:148-166 | with the address cast corrected for const objects (see Findings): same form: a copy; member pointers: rejected; functions: accepted iff noexcept is honoured, storing the pointer as given (null too); objects, const or not: accepted iff invocable as an lvalue `const_<T>&` (nothrow when noexcept), storing the object's address |
| FunctionRef.ConstructAsWritten | inc/function_ref.hpp:159 | as written, `reinterpret_cast<void *>(std::addressof(func))` does not compile for a const object, so construction fails exactly for the const objects (and const `function_ref`s of another form) that the constraints accept |
| FunctionRef.ConstObjectIsRejectedAsWritten | inc/function_ref.hpp:157-161 | a const object with a const call operator satisfies the constraints of `function_ref<R() const>`; corrected it is referenced, as written the constructor fails to compile |
| FunctionRef.AsWrittenDiffersOnlyOnConstObjects | inc/function_ref.hpp:157-161 | the as-written and corrected constructions differ exactly on accepted const objects |
| FunctionRef.Call | inc/function_ref.hpp:90-120 | a call reaches the referenced address and invokes the target's best operator for an lvalue `const_<T>`, not deleted and noexcept when the signature is |
| FunctionRef.CopyCallsTheSameTarget | inc/function_ref.hpp:163-164 | a copy invokes exactly what the original invokes |
| FunctionRef.ConversionAddsIndirection | inc/function_ref.hpp:156-161 | converting from another specialisation references that `function_ref` object itself |
| FunctionRef.Assign | inc/function_ref.hpp:165-170 | assignment works only from the same specialisation (copy) or from a function or pointer (convert, then copy); everything else selects the deleted `operator=(T)` |
| FunctionRef.AssignIsConstructThenCopy | inc/function_ref.hpp:165-170 | a successful assignment stores what construction would, whatever the old referent |
| FunctionRef.ObjectsAreNeverAssigned | inc/function_ref.hpp:168-170 | a class object that can construct a `function_ref` can never be assigned to one |
| FunctionRef.DeducedForm | inc/function_ref.hpp:175-176 | the guide deduces `function_ref<F>` from `F*`: never const, noexcept iff F is, and always constructible from the argument |
| FunctionRef.AcceptsWhatOwningWrappersAccept | inc/function_ref.hpp:157 | whatever `move_only_function<S>` accepts, `function_ref<S>` accepts |
| FunctionRef.LvalueOnlyCallableIsRefOnly | inc/function_ref.hpp:157 | an `&`-only functor is accepted by `function_ref<void()>` but not by `move_only_function<void()>` |
| FunctionRef.AcceptsSingleOperator | inc/function_ref.hpp:157 | closed form of acceptance for a one-operator object: not deleted, not `&&`, const when the signature or the object is, noexcept when the signature is |
| FunctionRef.FunctorCases | test/function_ref.cpp:62-83 | const operators fit every form their noexcept allows; non-const ones are rejected by the const forms |
| FunctionRef.ConstRefCallsMutableTarget | inc/function_ref.hpp:92-95 | a const `function_ref<R()>` calls a non-const operator of its target |
| FunctionRef.DeduceSignature | inc/function_ref.hpp:182-213 | data member to `R()`; member functions keep noexcept and drop const and `&`, with no type for `&&` or volatile; free functions drop their first parameter, with no type when there is none |
| FunctionRef.DeducedDropsTheObject | inc/function_ref.hpp:185-213 | the deduced signature has one parameter fewer than `std::invoke` passes, and cv/ref qualifiers leave no trace |

## Left out

- Running payloads: the argument forwarding and result conversion of `std::invoke_r` are abstract. A call says which operator is selected, not what it returns.
- Placement new, `reinterpret_cast`, union aliasing and alignment: the cell is a tagged datatype whose legal tag is fixed by the attached manager.
- `sizeof` layout assertions of the headers and tests: platform layout, not behaviour. The pointer width is a constant of 8 bytes.
- The `initializer_list` in-place constructors: they behave like the other in-place constructors.
- `std::function` interoperation in test/conversions.cpp: it depends on another library.
- `static_assert(is_constructible_v<VT, F>)` and `is_nothrow_destructible`: every modelled type is taken to be constructible from its argument and nothrow-destructible.
- Self-move-construction and self-copy-construction (`move_only_function<void()> f{std::move(f)};`) use the object before its lifetime begins, which is undefined behaviour; they are excluded by the `d !in w.headers` preconditions.
- Concurrency: the library has none.
- Owning.Construct, Owning.Assign, PtlFunction.Construct and PtlFunction.Assign: the argument is a value outside the world of wrappers. When it is a wrapper of another signature passed as an rvalue, constructing the target moves from it and empties it (`vtable::move_ctor`, or the heap hand-off of `ptl::function`); that effect on the argument is not modelled.
- Which step of constructing a target throws (the allocation of `new T` or T's own constructor) is one flag, `fails`; a throw in either leaves nothing allocated, as `new` guarantees.
- FunctionRef.Call: requires a non-null referent. The header leaves its precondition as a comment, and calling through a null function pointer is undefined.
- Owning.Call and PtlFunction.Call: require a non-empty wrapper. The header calls through the empty vtable's null `dispatch`, which is undefined.
- FunctionRef: when passed a function by name, both constructors are viable. The model sends it to the `F *` constructor, which is the more specialised; the alternative reference would be to the same function.
- The `ptl::function` nullptr comparisons `!=` and the reversed `==` are the negation or mirror of `operator==` and are not separate members.

## Findings

| source | as written | input that shows it | evidently intended | confidence | as-written member | corrected member |
|---|---|---|---|---|---|---|
| inc/copyable_function.hpp:593 | the staged branch of `operator=(const copyable_function&)` calls `other.vptr->move(&tmp, &storage)`, but the vtable has no `move` member (the older `ptl::function` vtable had one); the run-time `if` instantiates the branch whenever the operator is used, which is for every const lvalue source | `const copyable_function<void()> b; copyable_function<void()> a; a = b;` does not compile; a non-const lvalue `b` compiles, through `operator=(F&&)` | `other.vptr->destructive_move(&tmp, &storage)` | not executed | Manager.CopyOverAsWritten | Manager.CopyOverStaged |
| test/copyable_function.cpp:215-220 | the test requires a moved-from `copyable_function` with an inline target (and, at 201-213, with a function or function pointer) to stay non-empty; `vtable::move_ctor` (inc/copyable_function.hpp:102-106) empties every source | `const_free_throwing mf3{std::in_place_type<small_func>, 123}; const_free_throwing f3{std::move(mf3)};` then `REQUIRE(mf3)` fails | `REQUIRE(!mf3)`, as for the heap case at line 227; the expectation describes `ptl::function` (PtlFunction.MoveConstruct) | not executed | Owning.MoveFailsTheMovedFromTest | Owning.MoveConstruct |
| inc/copyable_function.hpp:468 | the null check asks `is_function_v<remove_pointer_t<F>>` and `is_member_pointer_v<F>` of the undecayed F, which is a reference for an lvalue argument; the same test appears at line 556 | `void (*fp)() = nullptr; move_only_function<void()> f{fp};` gives `f` a target, so `bool(f)` is true | ask the question of `decay_t<F>`, so that every null function or member pointer yields an empty wrapper | not executed | Owning.ConstructCellAsWritten | Owning.ConstructCell |
| inc/function.hpp:268 | the null check of `ptl::function(F&&)` asks the same two traits of the undecayed F | `void (*fp)() = nullptr; ptl::function<void()> f{fp};` gives `f` a target, so `bool(f)` is true | ask the question of `decay_t<F>` | not executed | PtlFunction.ConstructCellAsWritten | PtlFunction.ConstructCell |
| inc/function_ref.hpp:159 | `function_ref(F &&)` stores `reinterpret_cast<void *>(std::addressof(func))`; a `reinterpret_cast` may not cast away constness, and the constraints at line 157 do not look at the body | `struct S { int operator()() const; }; const S s; function_ref<int() const> r{s};` does not compile, although `is_constructible_v` is true | `const_cast<void *>(static_cast<const void *>(std::addressof(func)))` | not executed | FunctionRef.ConstructAsWritten | FunctionRef.Construct |
