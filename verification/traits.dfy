/** The signature classifier of `move_only_function` / `copyable_function`
    (inc/copyable_function.hpp): the twelve `traits` specialisations, the
    `invoker` each one derives from, the `invocable_using` check they share,
    the acceptance test `is_callable_from`, and the call operators
    `function_call` declares. */
module Traits {
  import opened Qualifiers

  /** The twelve specialisations of `traits<Signature>`, named after the
      qualifiers of `R(Args...) cv ref noexcept`. */
  datatype Form =
    | Plain | Const | Noexcept | ConstNoexcept
    | Lvalue | ConstLvalue | LvalueNoexcept | ConstLvalueNoexcept
    | Rvalue | ConstRvalue | RvalueNoexcept | ConstRvalueNoexcept

  /** The qualifier triple a form declares. */
  function SigOf(f: Form): Sig {
    match f
    case Plain => Sig(false, NoRef, false)
    case Const => Sig(true, NoRef, false)
    case Noexcept => Sig(false, NoRef, true)
    case ConstNoexcept => Sig(true, NoRef, true)
    case Lvalue => Sig(false, LRef, false)
    case ConstLvalue => Sig(true, LRef, false)
    case LvalueNoexcept => Sig(false, LRef, true)
    case ConstLvalueNoexcept => Sig(true, LRef, true)
    case Rvalue => Sig(false, RRef, false)
    case ConstRvalue => Sig(true, RRef, false)
    case RvalueNoexcept => Sig(false, RRef, true)
    case ConstRvalueNoexcept => Sig(true, RRef, true)
  }

  /** The form that declares a qualifier triple. */
  function FormOf(s: Sig): Form {
    match (s.isConst, s.ref, s.isNoexcept)
    case (false, NoRef, false) => Plain
    case (true, NoRef, false) => Const
    case (false, NoRef, true) => Noexcept
    case (true, NoRef, true) => ConstNoexcept
    case (false, LRef, false) => Lvalue
    case (true, LRef, false) => ConstLvalue
    case (false, LRef, true) => LvalueNoexcept
    case (true, LRef, true) => ConstLvalueNoexcept
    case (false, RRef, false) => Rvalue
    case (true, RRef, false) => ConstRvalue
    case (false, RRef, true) => RvalueNoexcept
    case (true, RRef, true) => ConstRvalueNoexcept
  }

  /** The twelve forms are exactly the (const, ref, noexcept) triples: the two
      maps are mutually inverse. */
  lemma FormsAreTriples(f: Form, s: Sig)
    ensures FormOf(SigOf(f)) == f
    ensures SigOf(FormOf(s)) == s
  {
  }

  /** The template arguments `invoker<Const, Noexcept, Move, ...>`. */
  datatype Invoker = Invoker(isConst: bool, isNoexcept: bool, isMove: bool)

  /** What one `traits` specialisation provides: the `invocable_using` base
      (whether it checks with `is_nothrow_invocable_r_v`), its `invoker`
      base, and the `quals` / `inv_quals` alias templates. */
  datatype Trait = Trait(nothrowCheck: bool, invoker: Invoker, quals: QualType, invQuals: QualType)

  /** The specialisations one by one, as declared. */
  function TraitsOf(f: Form): Trait {
    match f
    case Plain =>
      Trait(false, Invoker(false, false, false), QualType(false, NoRef), QualType(false, LRef))
    case Const =>
      Trait(false, Invoker(true, false, false), QualType(true, NoRef), QualType(true, LRef))
    case Noexcept =>
      Trait(true, Invoker(false, true, false), QualType(false, NoRef), QualType(false, LRef))
    case ConstNoexcept =>
      Trait(true, Invoker(true, true, false), QualType(true, NoRef), QualType(true, LRef))
    case Lvalue =>
      Trait(false, Invoker(false, false, false), QualType(false, LRef), QualType(false, LRef))
    case ConstLvalue =>
      Trait(false, Invoker(true, false, false), QualType(true, LRef), QualType(true, LRef))
    case LvalueNoexcept =>
      Trait(true, Invoker(false, true, false), QualType(false, LRef), QualType(false, LRef))
    case ConstLvalueNoexcept =>
      Trait(true, Invoker(true, true, false), QualType(true, LRef), QualType(true, LRef))
    case Rvalue =>
      Trait(false, Invoker(false, false, true), QualType(false, RRef), QualType(false, RRef))
    case ConstRvalue =>
      Trait(false, Invoker(true, false, true), QualType(true, RRef), QualType(true, RRef))
    case RvalueNoexcept =>
      Trait(true, Invoker(false, true, true), QualType(false, RRef), QualType(false, RRef))
    case ConstRvalueNoexcept =>
      Trait(true, Invoker(true, true, true), QualType(true, RRef), QualType(true, RRef))
  }

  /** The category the signature declares for the callable: its own const and
      ref qualifiers applied to the stored type. */
  function DeclaredQuals(s: Sig): QualType {
    QualType(s.isConst, s.ref)
  }

  /** The category the stored object is called through: always a reference
      (the stored object is never moved out merely to be called), an lvalue
      reference when the signature has no ref-qualifier. */
  function CallQuals(s: Sig): QualType {
    QualType(s.isConst, if s.ref == NoRef then LRef else s.ref)
  }

  /** All twelve specialisations follow one rule: `quals` applies the
      signature's qualifiers, `inv_quals` turns "no ref" into `&`, the check
      is nothrow exactly for noexcept forms, and the invoker's Const,
      Noexcept and Move flags are the signature's const, noexcept and `&&`. */
  lemma TraitsFollowQualifiers(f: Form)
    ensures TraitsOf(f).quals == DeclaredQuals(SigOf(f))
    ensures TraitsOf(f).invQuals == CallQuals(SigOf(f))
    ensures TraitsOf(f).nothrowCheck == SigOf(f).isNoexcept
    ensures TraitsOf(f).invoker == Invoker(SigOf(f).isConst, SigOf(f).isNoexcept, SigOf(f).ref == RRef)
  {
  }

  /** The object expression `invoker::get` hands to `std::invoke_r`:
      `move_<const_<T>>`, a const T when Const, and an rvalue reference when
      Move, otherwise an lvalue reference. */
  function InvokerCategory(inv: Invoker): ObjExpr {
    ObjExpr(inv.isConst, !inv.isMove)
  }

  /** The dispatch pointer type is `noexcept` exactly when Noexcept is set. */
  function DispatchIsNoexcept(inv: Invoker): bool {
    inv.isNoexcept
  }

  /** The invoker of every form calls the stored object with exactly the
      category `inv_quals` names, and its dispatch pointer is noexcept exactly
      when the signature is. */
  lemma InvokerMatchesCallQuals(f: Form)
    ensures InvokerCategory(TraitsOf(f).invoker) == ExprOf(TraitsOf(f).invQuals)
    ensures DispatchIsNoexcept(TraitsOf(f).invoker) <==> SigOf(f).isNoexcept
  {
  }

  /** `invocable_using<...>::is_invocable_using<Q>` for a callable type with
      call operators ops. */
  predicate InvocableUsing(f: Form, ops: seq<Overload>, q: QualType) {
    Invocable(ops, ExprOf(q), TraitsOf(f).nothrowCheck)
  }

  /** `is_callable_from<VT>`: invocable both as `quals<VT>` and as
      `inv_quals<VT>`. */
  predicate IsCallableFrom(f: Form, ops: seq<Overload>) {
    InvocableUsing(f, ops, TraitsOf(f).quals) && InvocableUsing(f, ops, TraitsOf(f).invQuals)
  }

  /** The acceptance test in terms of the qualifier triple alone. */
  predicate Accepts(s: Sig, ops: seq<Overload>) {
    && Invocable(ops, ExprOf(DeclaredQuals(s)), s.isNoexcept)
    && Invocable(ops, ExprOf(CallQuals(s)), s.isNoexcept)
  }

  lemma IsCallableFromIsAccepts(f: Form, ops: seq<Overload>)
    ensures IsCallableFrom(f, ops) <==> Accepts(SigOf(f), ops)
  {
    TraitsFollowQualifiers(f);
  }

  /** A noexcept signature accepts only what its throwing counterpart accepts. */
  lemma NoexceptAcceptsFewer(s: Sig, ops: seq<Overload>)
    requires s.isNoexcept
    ensures Accepts(s, ops) ==> Accepts(Sig(s.isConst, s.ref, false), ops)
  {
    NothrowImpliesInvocable(ops, ExprOf(DeclaredQuals(s)));
    NothrowImpliesInvocable(ops, ExprOf(CallQuals(s)));
  }

  /** Which single call operators a signature accepts, in closed form: not
      deleted; noexcept when the signature is; const when the signature is;
      and a ref-qualifier that binds every category the signature uses (an
      unqualified signature calls both as rvalue and lvalue, so it needs an
      unqualified or a `const &` operator; `&` rules out `&&`; `&&` rules out
      a non-const `&`). */
  predicate AcceptsSingle(s: Sig, o: Overload) {
    && !o.deleted
    && (s.isNoexcept ==> o.isNoexcept)
    && (s.isConst ==> o.isConst)
    && match s.ref
       case NoRef => o.ref == NoRef || (o.ref == LRef && o.isConst)
       case LRef => o.ref != RRef
       case RRef => o.ref != LRef || o.isConst
  }

  lemma AcceptsSingleOverload(s: Sig, o: Overload)
    ensures Accepts(s, [o]) <==> AcceptsSingle(s, o)
  {
    SingleOverloadInvocable(o, ExprOf(DeclaredQuals(s)), s.isNoexcept);
    SingleOverloadInvocable(o, ExprOf(CallQuals(s)), s.isNoexcept);
  }

  /** A callable whose only call operator carries exactly the signature's
      qualifiers is accepted by that signature. */
  lemma ExactCallableAccepted(s: Sig)
    ensures Accepts(s, [Overload(s.isConst, s.ref, s.isNoexcept, false)])
  {
    AcceptsSingleOverload(s, Overload(s.isConst, s.ref, s.isNoexcept, false));
  }

  /** The call operator `function_call<Impl, Signature>` declares for each
      form, as declared. */
  function CallOperatorOf(f: Form): Overload {
    match f
    case Plain => Overload(false, NoRef, false, false)
    case Const => Overload(true, NoRef, false, false)
    case Noexcept => Overload(false, NoRef, true, false)
    case ConstNoexcept => Overload(true, NoRef, true, false)
    case Lvalue => Overload(false, LRef, false, false)
    case ConstLvalue => Overload(true, LRef, false, false)
    case LvalueNoexcept => Overload(false, LRef, true, false)
    case ConstLvalueNoexcept => Overload(true, LRef, true, false)
    case Rvalue => Overload(false, RRef, false, false)
    case ConstRvalue => Overload(true, RRef, false, false)
    case RvalueNoexcept => Overload(false, RRef, true, false)
    case ConstRvalueNoexcept => Overload(true, RRef, true, false)
  }

  /** Each wrapper declares a single call operator whose qualifiers are the
      signature's own; hence a wrapper is itself accepted by a wrapper of the
      same signature, and can be called on e exactly when that operator binds e. */
  lemma CallOperatorCarriesSignature(f: Form, e: ObjExpr)
    ensures CallOperatorOf(f) == Overload(SigOf(f).isConst, SigOf(f).ref, SigOf(f).isNoexcept, false)
    ensures Accepts(SigOf(f), [CallOperatorOf(f)])
    ensures Invocable([CallOperatorOf(f)], e, false) <==> Viable(CallOperatorOf(f), e)
  {
    ExactCallableAccepted(SigOf(f));
    SingleOverloadInvocable(CallOperatorOf(f), e, false);
  }
}
