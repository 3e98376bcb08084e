/** Qualifiers of function types and the implicit-object-parameter rule of
    C++ overload resolution (ISO/IEC 14882:2023, [over.match.funcs] and
    [over.ics.rank]), restricted to what the wrappers need: which call
    operator of a callable type a call selects when it is made on an object
    expression of a given constness and value category.

    Argument forwarding and return-type conversion are not modelled: every
    call operator here is taken to accept the declared arguments and to
    return something convertible to the declared result. */
module Qualifiers {
  import opened Outcomes

  /** The reference qualifier of a member function or of a declared signature:
      none, `&` or `&&`. */
  datatype Ref = NoRef | LRef | RRef

  /** A declared signature `R(Args...) [const] [&|&&] [noexcept]`, reduced to
      its three qualifier axes. */
  datatype Sig = Sig(isConst: bool, ref: Ref, isNoexcept: bool)

  /** A type `[const] VT [&|&&]` built over the stored type VT. */
  datatype QualType = QualType(isConst: bool, ref: Ref)

  /** The constness and value category of an object expression. */
  datatype ObjExpr = ObjExpr(isConst: bool, isLvalue: bool)

  /** One declared call operator `operator()(Args...) [const] [&|&&]
      [noexcept] [= delete]` of a callable type. */
  datatype Overload = Overload(isConst: bool, ref: Ref, isNoexcept: bool, deleted: bool)

  /** The expression `std::declval<Q>()` for the type Q: a reference to it
      yields an lvalue exactly when Q is an lvalue reference; a plain object
      type or an rvalue reference yields an rvalue. */
  function ExprOf(q: QualType): (e: ObjExpr)
    ensures e.isConst == q.isConst
    ensures e.isLvalue <==> q.ref == LRef
  {
    ObjExpr(q.isConst, q.ref == LRef)
  }

  /** An overload can bind its implicit object parameter to e: a const object
      needs a const member; `&` binds lvalues, and also rvalues when it is
      `const &`; `&&` binds rvalues only; no ref-qualifier binds both. */
  predicate Viable(o: Overload, e: ObjExpr) {
    && (e.isConst ==> o.isConst)
    && match o.ref
       case NoRef => true
       case LRef => e.isLvalue || o.isConst
       case RRef => !e.isLvalue
  }

  /** o1's implicit object conversion is better than o2's for e: for an
      rvalue, binding `&&` beats binding `&`; otherwise binding the less
      cv-qualified reference wins. */
  predicate Better(o1: Overload, o2: Overload, e: ObjExpr) {
    if !e.isLvalue && o1.ref == RRef && o2.ref == LRef then true
    else if !e.isLvalue && o1.ref == LRef && o2.ref == RRef then false
    else !o1.isConst && o2.isConst
  }

  /** Index i holds the best viable overload of ops for e: it is viable and
      better than every other viable overload. */
  predicate IsBest(ops: seq<Overload>, i: int, e: ObjExpr) {
    && 0 <= i < |ops|
    && Viable(ops[i], e)
    && forall j | 0 <= j < |ops| && j != i && Viable(ops[j], e) :: Better(ops[i], ops[j], e)
  }

  /** Overload resolution from index k on: the best viable overload, or None
      when no overload is viable or no viable one beats all the others
      (an ambiguous call). */
  function Resolve(ops: seq<Overload>, e: ObjExpr, k: nat := 0): (r: Option<nat>)
    requires k <= |ops|
    ensures r.Some? ==> k <= r.value && IsBest(ops, r.value, e)
    ensures r.None? ==> forall i | k <= i < |ops| :: !IsBest(ops, i, e)
    decreases |ops| - k
  {
    if k == |ops| then None
    else if IsBest(ops, k, e) then Some(k)
    else Resolve(ops, e, k + 1)
  }

  /** `Better` is asymmetric, so a best overload is unique. */
  lemma BestIsUnique(ops: seq<Overload>, i: int, j: int, e: ObjExpr)
    requires IsBest(ops, i, e) && IsBest(ops, j, e)
    ensures i == j
  {
  }

  /** `std::is_invocable_v` (or `std::is_nothrow_invocable_v` when `nothrow`
      is set) for a callable whose call operators are ops, called on e:
      resolution must select an overload that is not deleted, and, when
      nothrow is asked for, one declared `noexcept`. */
  predicate Invocable(ops: seq<Overload>, e: ObjExpr, nothrow: bool) {
    match Resolve(ops, e)
    case None => false
    case Some(i) => !ops[i].deleted && (nothrow ==> ops[i].isNoexcept)
  }

  /** Invocability stated without the resolution procedure: some overload is
      the best viable one for e, is not deleted, and is noexcept when asked. */
  lemma InvocableIffBestUsable(ops: seq<Overload>, e: ObjExpr, nothrow: bool)
    ensures Invocable(ops, e, nothrow) <==>
            exists i :: IsBest(ops, i, e) && !ops[i].deleted && (nothrow ==> ops[i].isNoexcept)
  {
    match Resolve(ops, e)
    case None =>
    case Some(k) =>
      forall i | IsBest(ops, i, e)
        ensures i == k
      {
        BestIsUnique(ops, i, k, e);
      }
  }

  /** A single call operator is invocable on e exactly when it can bind e and
      is not deleted (and is noexcept when that is asked for). */
  lemma SingleOverloadInvocable(o: Overload, e: ObjExpr, nothrow: bool)
    ensures Invocable([o], e, nothrow) <==> Viable(o, e) && !o.deleted && (nothrow ==> o.isNoexcept)
  {
  }

  /** Asking for nothrow only removes callables: a nothrow-invocable call is
      invocable. */
  lemma NothrowImpliesInvocable(ops: seq<Overload>, e: ObjExpr)
    ensures Invocable(ops, e, true) ==> Invocable(ops, e, false)
  {
  }
}
