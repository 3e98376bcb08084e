/** The non-owning `function_ref` (inc/function_ref.hpp): the four `traits`
    specialisations, the always-const call operator `function_call`
    declares, the two converting constructors with their constraints, the
    defaulted copy and the deleted assignment from anything but a pointer,
    the deduction guide, and the `deduce_signature` table.

    A `function_ref` is a pair (pointer, dispatch): the address of the
    referenced function or object and `traits::functor<T>` for its type T.
    It owns nothing, so no heap appears here; an address is only a number. */
module FunctionRef {
  import opened Outcomes
  import opened Qualifiers
  import Traits

  /** The four specialisations of `traits<Signature>`: `R(Args...)` with or
      without `const` and with or without `noexcept`. */
  datatype RefForm = Plain | Const | Noexcept | ConstNoexcept

  /** What one specialisation provides: its `const_` and `noexcept_` tags,
      whether `dispatch_type` is a noexcept function pointer, whether
      `functor<T>` reads the target as `const T` and is itself noexcept, and
      whether `is_invocable_using` is the nothrow check. */
  datatype RefTrait = RefTrait(
    isConst: bool,
    isNoexcept: bool,
    dispatchNoexcept: bool,
    functorConst: bool,
    functorNoexcept: bool,
    nothrowCheck: bool)

  /** The specialisations one by one, as declared. */
  function RefTraitsOf(f: RefForm): RefTrait {
    match f
    case Plain => RefTrait(false, false, false, false, false, false)
    case Const => RefTrait(true, false, false, true, false, false)
    case Noexcept => RefTrait(false, true, true, false, true, true)
    case ConstNoexcept => RefTrait(true, true, true, true, true, true)
  }

  /** The specialisation for a (const, noexcept) pair. */
  function RefFormOf(isConst: bool, isNoexcept: bool): RefForm {
    match (isConst, isNoexcept)
    case (false, false) => Plain
    case (true, false) => Const
    case (false, true) => Noexcept
    case (true, true) => ConstNoexcept
  }

  /** Exactly the four (const, noexcept) pairs exist, each once, and every
      member of a specialisation follows its two tags: the dispatch pointer,
      the functor and the invocability check are noexcept exactly when the
      signature is, and the functor reads the target as const exactly when
      the signature is const. */
  lemma RefFormsArePairs(f: RefForm, isConst: bool, isNoexcept: bool)
    ensures RefFormOf(RefTraitsOf(f).isConst, RefTraitsOf(f).isNoexcept) == f
    ensures RefTraitsOf(RefFormOf(isConst, isNoexcept)).isConst == isConst
    ensures RefTraitsOf(RefFormOf(isConst, isNoexcept)).isNoexcept == isNoexcept
    ensures RefTraitsOf(f).dispatchNoexcept == RefTraitsOf(f).isNoexcept
    ensures RefTraitsOf(f).functorNoexcept == RefTraitsOf(f).isNoexcept
    ensures RefTraitsOf(f).nothrowCheck == RefTraitsOf(f).isNoexcept
    ensures RefTraitsOf(f).functorConst == RefTraitsOf(f).isConst
  {
  }

  /** The same signature among the twelve forms of the owning wrappers. */
  function AsOwningForm(f: RefForm): Traits.Form {
    match f
    case Plain => Traits.Plain
    case Const => Traits.Const
    case Noexcept => Traits.Noexcept
    case ConstNoexcept => Traits.ConstNoexcept
  }

  /** The `function_ref` signatures are exactly the twelve forms without a
      ref-qualifier: every form maps to an unqualified one with the same
      const and noexcept, and every unqualified form is reached. */
  lemma RefFormsAreUnqualifiedForms(f: RefForm, g: Traits.Form)
    ensures Traits.SigOf(AsOwningForm(f)) == Sig(RefTraitsOf(f).isConst, NoRef, RefTraitsOf(f).isNoexcept)
    ensures Traits.SigOf(g).ref == NoRef ==>
              AsOwningForm(RefFormOf(Traits.SigOf(g).isConst, Traits.SigOf(g).isNoexcept)) == g
  {
  }

  /** The call operator `function_call` declares for each specialisation. */
  function CallOperatorOf(f: RefForm): Overload {
    match f
    case Plain => Overload(true, NoRef, false, false)
    case Const => Overload(true, NoRef, false, false)
    case Noexcept => Overload(true, NoRef, true, false)
    case ConstNoexcept => Overload(true, NoRef, true, false)
  }

  /** The call operator is const whatever the signature says and has no
      ref-qualifier, so it binds every `function_ref` expression, const or
      not, lvalue or rvalue; it is noexcept exactly when the signature is. */
  lemma CallOperatorAlwaysConst(f: RefForm, e: ObjExpr)
    ensures CallOperatorOf(f).isConst
    ensures Viable(CallOperatorOf(f), e)
    ensures Invocable([CallOperatorOf(f)], e, false)
    ensures CallOperatorOf(f).isNoexcept <==> RefTraitsOf(f).isNoexcept
  {
    SingleOverloadInvocable(CallOperatorOf(f), e, false);
  }

  /** A referenced address; a function pointer may be null. */
  datatype Address = Null | At(loc: nat)

  /** The referenced type T the dispatch is instantiated for: a function type
      (noexcept or not), or a class type with its call operators, possibly
      const-qualified. */
  datatype Target =
    | FunctionTarget(fnNoexcept: bool)
    | ObjectTarget(isConst: bool, ops: seq<Overload>)

  /** A `function_ref`: its specialisation, the stored `ptr`, and the target
      type `dispatch = traits::functor<T>` was instantiated with. */
  datatype FnRef = FnRef(form: RefForm, ptr: Address, target: Target)

  /** The argument of a constructor or of an assignment: a function or a
      pointer to one (the function-to-pointer conversion is exact, so both
      reach the `F *` constructor), a class object at some address (lvalue or
      rvalue alike: T is `remove_reference_t<F>`), a member pointer, or
      another `function_ref` object, const or not, at some address. */
  datatype RefArg =
    | FunctionArg(fnNoexcept: bool, fn: Address)
    | ObjectArg(isConst: bool, ops: seq<Overload>, at: nat)
    | MemberPointerArg(at: nat)
    | RefObject(ref: FnRef, refConst: bool, at: nat)

  /** `is_invocable_using<X>`, where X is the target called as an lvalue,
      made const when `addConst`: a function is invocable whatever its
      constness (const on a function type is ignored), nothrow exactly when
      its type is noexcept; an object goes through overload resolution of its
      call operators. */
  predicate InvocableUsing(f: RefForm, t: Target, addConst: bool) {
    match t
    case FunctionTarget(n) => RefTraitsOf(f).nothrowCheck ==> n
    case ObjectTarget(c, ops) => Invocable(ops, ObjExpr(c || addConst, true), RefTraitsOf(f).nothrowCheck)
  }

  /** The constraint both constructors establish: the target is invocable
      through `const_<T> &`. */
  predicate Valid(r: FnRef) {
    InvocableUsing(r.form, r.target, RefTraitsOf(r.form).isConst)
  }

  /** Why no constructor applies: the argument is a member pointer (excluded
      by `!is_member_pointer_v<T>`), the target is not invocable as the
      signature requires, or the selected constructor's body does not
      compile because its `reinterpret_cast` would cast away constness. */
  datatype RefCtorError = MemberPointer | NotInvocable | CastsAwayConst

  /** An argument that is a `function_ref` is one a constructor made. */
  predicate WellFormed(arg: RefArg) {
    arg.RefObject? ==> Valid(arg.ref)
  }

  /** The target a converting constructor instantiates `functor<T>` with: a
      `function_ref` of another specialisation is an ordinary class object
      whose one call operator is the const one `function_call` declares. */
  function TargetOf(arg: RefArg): Target
    requires !arg.MemberPointerArg?
  {
    match arg
    case FunctionArg(n, _) => FunctionTarget(n)
    case ObjectArg(c, ops, _) => ObjectTarget(c, ops)
    case RefObject(g, c, _) => ObjectTarget(c, [CallOperatorOf(g.form)])
  }

  /** Construction of a `function_ref<f>` from arg. A `function_ref` of the
      same specialisation is copied (the defaulted copy constructor; the
      converting one excludes it). A function goes through `function_ref(F *)`:
      the pointer is stored as given, a null one included, since the
      precondition is only a comment there. Anything else goes through
      `function_ref(F &&)`, which stores `std::addressof(func)`, a const
      object's address included: the cast is corrected to one that keeps
      the constness out of `void *` legally (`ConstructAsWritten` is the
      cast as written). */
  function Construct(f: RefForm, arg: RefArg): (r: Result<FnRef, RefCtorError>)
    requires WellFormed(arg)
    ensures r.Ok? ==> r.value.form == f && Valid(r.value)
    ensures arg.RefObject? && arg.ref.form == f ==> r == Ok(arg.ref)
    ensures arg.MemberPointerArg? ==> r == Err(MemberPointer)
    ensures arg.FunctionArg? ==>
              && (r.Ok? <==> (RefTraitsOf(f).isNoexcept ==> arg.fnNoexcept))
              && (r.Ok? ==> r.value.ptr == arg.fn)
    ensures arg.ObjectArg? ==>
              && (r.Ok? <==> Invocable(arg.ops, ObjExpr(arg.isConst || RefTraitsOf(f).isConst, true), RefTraitsOf(f).isNoexcept))
              && (r.Ok? ==> r.value.ptr == At(arg.at))
    ensures arg.RefObject? && arg.ref.form != f ==>
              && (r.Ok? <==> (RefTraitsOf(f).isNoexcept ==> RefTraitsOf(arg.ref.form).isNoexcept))
              && (r.Ok? ==> r.value.ptr == At(arg.at))
  {
    match arg
    case MemberPointerArg(_) => Err(MemberPointer)
    case RefObject(g, _, at) =>
      if g.form == f then Ok(g)
      else if InvocableUsing(f, TargetOf(arg), RefTraitsOf(f).isConst) then Ok(FnRef(f, At(at), TargetOf(arg)))
      else Err(NotInvocable)
    case FunctionArg(_, fn) =>
      if InvocableUsing(f, TargetOf(arg), RefTraitsOf(f).isConst) then Ok(FnRef(f, fn, TargetOf(arg)))
      else Err(NotInvocable)
    case ObjectArg(_, _, at) =>
      if InvocableUsing(f, TargetOf(arg), RefTraitsOf(f).isConst) then Ok(FnRef(f, At(at), TargetOf(arg)))
      else Err(NotInvocable)
  }

  /** `std::addressof(func)` points to a const object and the converting
      constructor `function_ref(F &&)` takes it: a const class object, or a
      const `function_ref` of another specialisation. */
  predicate ConstThroughConvertingCtor(f: RefForm, arg: RefArg) {
    || (arg.ObjectArg? && arg.isConst)
    || (arg.RefObject? && arg.ref.form != f && arg.refConst)
  }

  /** Construction as written: `function_ref(F &&)` stores
      `reinterpret_cast<void *>(std::addressof(func))`, and a
      `reinterpret_cast` may not cast away constness, so for a const object
      the constructor that overload resolution selects (its constraints do
      not look at the body) fails to compile. Every other argument is
      treated as by `Construct`. */
  function ConstructAsWritten(f: RefForm, arg: RefArg): (r: Result<FnRef, RefCtorError>)
    requires WellFormed(arg)
    ensures r == Err(CastsAwayConst) <==> Construct(f, arg).Ok? && ConstThroughConvertingCtor(f, arg)
    ensures r.Ok? ==> r == Construct(f, arg)
    ensures Construct(f, arg).Err? ==> r == Construct(f, arg)
  {
    match Construct(f, arg)
    case Err(e) => Err(e)
    case Ok(v) => if ConstThroughConvertingCtor(f, arg) then Err(CastsAwayConst) else Ok(v)
  }

  /** A const object callable through its const call operator is what a
      `function_ref<R() const>` is for, yet as written it cannot be bound:
      the corrected constructor refers to it, the one as written does not
      compile. */
  lemma ConstObjectIsRejectedAsWritten(at: nat)
    ensures Construct(Const, ObjectArg(true, [Overload(true, NoRef, false, false)], at)) ==
              Ok(FnRef(Const, At(at), ObjectTarget(true, [Overload(true, NoRef, false, false)])))
    ensures ConstructAsWritten(Const, ObjectArg(true, [Overload(true, NoRef, false, false)], at)) == Err(CastsAwayConst)
  {
    SingleOverloadInvocable(Overload(true, NoRef, false, false), ObjExpr(true, true), false);
  }

  /** The two constructions differ exactly on const objects the converting
      constructor accepts; for a non-const argument they agree. */
  lemma AsWrittenDiffersOnlyOnConstObjects(f: RefForm, arg: RefArg)
    requires WellFormed(arg)
    ensures ConstructAsWritten(f, arg) != Construct(f, arg) <==> Construct(f, arg).Ok? && ConstThroughConvertingCtor(f, arg)
  {
  }

  /** What a call through a `function_ref` invokes: the function at an
      address, or the call operator `ops[index]` of the object at an address,
      selected for the object expression `expr`. */
  datatype Invocation =
    | CallFunction(fn: nat, isNoexcept: bool)
    | CallOperator(obj: nat, index: nat, expr: ObjExpr)

  /** `operator()`: `dispatch(ptr, args...)`, which calls the target as an
      lvalue `const_<T>` through the stored address. Calling through a null
      function pointer is undefined, hence the requirement. */
  function Call(r: FnRef): (c: Invocation)
    requires Valid(r) && r.ptr.At?
    ensures c.CallFunction? <==> r.target.FunctionTarget?
    ensures c.CallFunction? ==> c.fn == r.ptr.loc && (RefTraitsOf(r.form).isNoexcept ==> c.isNoexcept)
    ensures c.CallOperator? ==>
              && c.obj == r.ptr.loc
              && c.expr == ObjExpr(r.target.isConst || RefTraitsOf(r.form).isConst, true)
              && IsBest(r.target.ops, c.index, c.expr)
              && !r.target.ops[c.index].deleted
              && (RefTraitsOf(r.form).isNoexcept ==> r.target.ops[c.index].isNoexcept)
  {
    match r.target
    case FunctionTarget(n) => CallFunction(r.ptr.loc, n)
    case ObjectTarget(isConst, ops) =>
      var e := ObjExpr(isConst || RefTraitsOf(r.form).isConst, true);
      CallOperator(r.ptr.loc, Resolve(ops, e).value, e)
  }

  /** A copy invokes exactly what the original invokes: the copy constructor
      duplicates the (pointer, dispatch) pair. */
  lemma CopyCallsTheSameTarget(g: FnRef, isConst: bool, at: nat)
    requires Valid(g) && g.ptr.At?
    ensures Construct(g.form, RefObject(g, isConst, at)).Ok?
    ensures Call(Construct(g.form, RefObject(g, isConst, at)).value) == Call(g)
  {
  }

  /** Converting from a `function_ref` of another specialisation refers to
      that `function_ref` object, not to what it refers to: calling the new
      one calls the old one's operator. */
  lemma ConversionAddsIndirection(f: RefForm, g: FnRef, isConst: bool, at: nat)
    requires Valid(g) && g.form != f && RefTraitsOf(g.form).isNoexcept
    ensures Construct(f, RefObject(g, isConst, at)).Ok?
    ensures Call(Construct(f, RefObject(g, isConst, at)).value) == CallOperator(at, 0, ObjExpr(isConst || RefTraitsOf(f).isConst, true))
  {
  }

  /** Why an assignment does not compile: the deleted `operator=(T)` is
      selected, or the pointer converts to no `function_ref` of this
      specialisation. */
  datatype AssignError = DeletedAssignment | NoConversion

  /** `lhs = arg`. A `function_ref` of the same specialisation is copied by
      the defaulted copy assignment. A function or function pointer (T is
      deduced by value, so a function decays to a pointer) is not caught by
      the deleted template; it converts through `function_ref(F *)` and is
      then copy-assigned. Everything else, objects, member pointers and other
      specialisations, selects the deleted `operator=(T)`. */
  function Assign(lhs: FnRef, arg: RefArg): (r: Result<FnRef, AssignError>)
    requires WellFormed(arg)
    ensures r.Ok? ==> r.value.form == lhs.form && Valid(r.value)
    ensures r.Ok? <==> (arg.FunctionArg? && Construct(lhs.form, arg).Ok?) || (arg.RefObject? && arg.ref.form == lhs.form)
    ensures r == Err(DeletedAssignment) <==> !arg.FunctionArg? && !(arg.RefObject? && arg.ref.form == lhs.form)
  {
    match arg
    case RefObject(g, _, _) => if g.form == lhs.form then Ok(g) else Err(DeletedAssignment)
    case FunctionArg(_, _) =>
      (match Construct(lhs.form, arg)
       case Ok(t) => Ok(t)
       case Err(_) => Err(NoConversion))
    case ObjectArg(_, _, _) => Err(DeletedAssignment)
    case MemberPointerArg(_) => Err(DeletedAssignment)
  }

  /** Whatever the assignment stores is what construction from the same
      argument makes, and the old referent is forgotten entirely. */
  lemma AssignIsConstructThenCopy(lhs: FnRef, other: FnRef, arg: RefArg)
    requires WellFormed(arg) && other.form == lhs.form
    ensures Assign(lhs, arg).Ok? ==> Construct(lhs.form, arg) == Ok(Assign(lhs, arg).value)
    ensures Assign(lhs, arg) == Assign(other, arg)
  {
  }

  /** A `function_ref` can be constructed from an object it cannot be
      assigned from: assigning any class object is deleted, so that a
      temporary cannot be bound after construction. */
  lemma ObjectsAreNeverAssigned(lhs: FnRef, ops: seq<Overload>, at: nat)
    requires Construct(lhs.form, ObjectArg(false, ops, at)).Ok?
    ensures Assign(lhs, ObjectArg(false, ops, at)) == Err(DeletedAssignment)
  {
  }

  /** Class template argument deduction: the guide `function_ref(F *) ->
      function_ref<F>` for functions and function pointers, and the copy
      deduction candidate for a `function_ref`; nothing else deduces a
      signature. */
  function DeducedForm(arg: RefArg): (f: Option<RefForm>)
    requires WellFormed(arg)
    ensures f.Some? ==> Construct(f.value, arg).Ok?
    ensures arg.FunctionArg? ==>
              && f.Some?
              && !RefTraitsOf(f.value).isConst
              && (RefTraitsOf(f.value).isNoexcept <==> arg.fnNoexcept)
    ensures arg.RefObject? ==> f == Some(arg.ref.form)
    ensures arg.ObjectArg? || arg.MemberPointerArg? ==> f.None?
  {
    match arg
    case FunctionArg(n, _) => Some(if n then Noexcept else Plain)
    case RefObject(g, _, _) => Some(g.form)
    case ObjectArg(_, _, _) => None
    case MemberPointerArg(_) => None
  }

  /** Accepting an object takes one lvalue call, `const_<T> &`, where the
      owning wrapper of the same signature also needs `quals<T>`, an rvalue:
      whatever `move_only_function<S>` accepts, `function_ref<S>` accepts. */
  lemma AcceptsWhatOwningWrappersAccept(f: RefForm, ops: seq<Overload>, at: nat)
    requires Traits.Accepts(Traits.SigOf(AsOwningForm(f)), ops)
    ensures Construct(f, ObjectArg(false, ops, at)).Ok?
  {
  }

  /** The converse fails: an object whose only call operator is `&`-qualified
      is referenced by `function_ref<void()>` but rejected by
      `move_only_function<void()>`, which also calls it as an rvalue. */
  lemma LvalueOnlyCallableIsRefOnly(at: nat)
    ensures Construct(Plain, ObjectArg(false, [Overload(false, LRef, false, false)], at)).Ok?
    ensures !Traits.Accepts(Traits.SigOf(Traits.Plain), [Overload(false, LRef, false, false)])
  {
    SingleOverloadInvocable(Overload(false, LRef, false, false), ObjExpr(false, true), false);
    Traits.AcceptsSingleOverload(Traits.SigOf(Traits.Plain), Overload(false, LRef, false, false));
  }

  /** Acceptance of an object with a single call operator, in closed form:
      not deleted, callable on an lvalue (not `&&`), const when the signature
      or the object is, noexcept when the signature is. */
  lemma AcceptsSingleOperator(f: RefForm, isConst: bool, o: Overload, at: nat)
    ensures Construct(f, ObjectArg(isConst, [o], at)).Ok? <==>
              && !o.deleted
              && o.ref != RRef
              && (isConst || RefTraitsOf(f).isConst ==> o.isConst)
              && (RefTraitsOf(f).isNoexcept ==> o.isNoexcept)
  {
    SingleOverloadInvocable(o, ObjExpr(isConst || RefTraitsOf(f).isConst, true), RefTraitsOf(f).isNoexcept);
  }

  /** The functor cases of the test suite: a const call operator is accepted
      by all four forms its noexcept allows, a non-const one only by the
      non-const forms, and a throwing one by no noexcept form. */
  lemma FunctorCases(at: nat)
    ensures Construct(Plain, ObjectArg(false, [Overload(true, NoRef, false, false)], at)).Ok?
    ensures Construct(Const, ObjectArg(false, [Overload(true, NoRef, false, false)], at)).Ok?
    ensures Construct(Noexcept, ObjectArg(false, [Overload(true, NoRef, true, false)], at)).Ok?
    ensures Construct(ConstNoexcept, ObjectArg(false, [Overload(true, NoRef, true, false)], at)).Ok?
    ensures Construct(Plain, ObjectArg(false, [Overload(false, NoRef, false, false)], at)).Ok?
    ensures Construct(Const, ObjectArg(false, [Overload(false, NoRef, false, false)], at)).Err?
    ensures Construct(Noexcept, ObjectArg(false, [Overload(false, NoRef, true, false)], at)).Ok?
    ensures Construct(ConstNoexcept, ObjectArg(false, [Overload(false, NoRef, true, false)], at)).Err?
    ensures Construct(Noexcept, ObjectArg(false, [Overload(true, NoRef, false, false)], at)).Err?
  {
    AcceptsSingleOperator(Plain, false, Overload(true, NoRef, false, false), at);
    AcceptsSingleOperator(Const, false, Overload(true, NoRef, false, false), at);
    AcceptsSingleOperator(Noexcept, false, Overload(true, NoRef, true, false), at);
    AcceptsSingleOperator(ConstNoexcept, false, Overload(true, NoRef, true, false), at);
    AcceptsSingleOperator(Plain, false, Overload(false, NoRef, false, false), at);
    AcceptsSingleOperator(Const, false, Overload(false, NoRef, false, false), at);
    AcceptsSingleOperator(Noexcept, false, Overload(false, NoRef, true, false), at);
    AcceptsSingleOperator(ConstNoexcept, false, Overload(false, NoRef, true, false), at);
    AcceptsSingleOperator(Noexcept, false, Overload(true, NoRef, false, false), at);
  }

  /** A `function_ref` of a non-const signature may call a non-const
      operator of its target even when the `function_ref` itself is const:
      its own operator is const, and constness does not reach the target. */
  lemma ConstRefCallsMutableTarget(at: nat, loc: nat)
    ensures Construct(Plain, ObjectArg(false, [Overload(false, NoRef, false, false)], at)).Ok?
    ensures Viable(CallOperatorOf(Plain), ObjExpr(true, true))
    ensures Call(FnRef(Plain, At(loc), ObjectTarget(false, [Overload(false, NoRef, false, false)]))) ==
              CallOperator(loc, 0, ObjExpr(false, true))
  {
    AcceptsSingleOperator(Plain, false, Overload(false, NoRef, false, false), at);
  }

  /** The member-pointer and free-function shapes `deduce_signature` has
      specialisations for (and the ones it has none for): a data member
      `R C::*`, a member function `R (C::*)(Args...) cv ref noexcept` with
      `arity` parameters, and a function pointer `R (*)(Params...)` with
      `arity` parameters. */
  datatype Callee =
    | DataMember
    | MemberFunction(isConst: bool, isVolatile: bool, ref: Ref, isNoexcept: bool, arity: nat)
    | FreeFunction(isNoexcept: bool, arity: nat)

  /** A deduced signature `R(Args...) [noexcept]`: its parameter count and
      its noexcept. */
  datatype Deduced = Deduced(isNoexcept: bool, arity: nat)

  /** How many arguments `std::invoke` passes to the callee for a call with
      the object argument first: the object, then the parameters. */
  function InvokeArity(c: Callee): nat {
    match c
    case DataMember => 1
    case MemberFunction(_, _, _, _, n) => n + 1
    case FreeFunction(_, n) => n
  }

  /** `deduce_signature<F>::type`, or None where no specialisation matches. */
  function DeduceSignature(c: Callee): (d: Option<Deduced>)
    ensures c.DataMember? ==> d == Some(Deduced(false, 0))
    ensures c.MemberFunction? ==> (d.Some? <==> !c.isVolatile && c.ref != RRef)
    ensures c.FreeFunction? ==> (d.Some? <==> c.arity >= 1)
    ensures d.Some? && !c.DataMember? ==> d.value.isNoexcept == c.isNoexcept
  {
    match c
    case DataMember => Some(Deduced(false, 0))
    case MemberFunction(_, v, ref, n, k) =>
      if v || ref == RRef then None else Some(Deduced(n, k))
    case FreeFunction(n, k) =>
      if k == 0 then None else Some(Deduced(n, k - 1))
  }

  /** The deduced signature is the callee's with the bound object taken off:
      one parameter fewer than `std::invoke` passes. The const and `&` of a
      member function leave no trace in it. */
  lemma DeducedDropsTheObject(c: Callee)
    requires DeduceSignature(c).Some?
    ensures DeduceSignature(c).value.arity + 1 == InvokeArity(c)
    ensures c.MemberFunction? ==>
              DeduceSignature(c) ==
              DeduceSignature(MemberFunction(false, false, NoRef, c.isNoexcept, c.arity))
  {
  }
}
