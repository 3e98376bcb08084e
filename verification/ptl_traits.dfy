/** The signature classifier of the older `ptl::function` (inc/function.hpp):
    `refness` and `add_refness`, the twelve `traits` specialisations as
    (const_, noexcept_, ref) triples, `add_quals` / `add_inv_quals`, the
    acceptance test `is_callable_from`, and the six `enable_if`-guarded call
    operators. `refness` {none, lvalue, rvalue} is modelled by `Ref`. */
module PtlTraits {
  import opened Qualifiers
  import Traits

  /** `traits<Signature>` of function.hpp: its `const_`, `noexcept_` and `ref`
      members (the underlying `function` type is not modelled). */
  datatype PtlTrait = PtlTrait(isConst: bool, isNoexcept: bool, ref: Ref)

  /** The specialisations one by one, as declared. */
  function PtlTraitsOf(f: Traits.Form): PtlTrait {
    match f
    case Plain => PtlTrait(false, false, NoRef)
    case Const => PtlTrait(true, false, NoRef)
    case Noexcept => PtlTrait(false, true, NoRef)
    case ConstNoexcept => PtlTrait(true, true, NoRef)
    case Lvalue => PtlTrait(false, false, LRef)
    case ConstLvalue => PtlTrait(true, false, LRef)
    case LvalueNoexcept => PtlTrait(false, true, LRef)
    case ConstLvalueNoexcept => PtlTrait(true, true, LRef)
    case Rvalue => PtlTrait(false, false, RRef)
    case ConstRvalue => PtlTrait(true, false, RRef)
    case RvalueNoexcept => PtlTrait(false, true, RRef)
    case ConstRvalueNoexcept => PtlTrait(true, true, RRef)
  }

  /** The twelve specialisations decompose each signature into exactly its
      (const, noexcept, refness) triple. */
  lemma PtlTraitsDecompose(f: Traits.Form)
    ensures PtlTraitsOf(f) == PtlTrait(Traits.SigOf(f).isConst, Traits.SigOf(f).isNoexcept, Traits.SigOf(f).ref)
  {
  }

  /** `add_refness_t<add_const<VT>, r>`. */
  function AddRefness(t: PtlTrait, r: Ref): QualType {
    QualType(t.isConst, r)
  }

  /** `add_quals<VT>`: the declared const and ref applied to VT. */
  function AddQuals(t: PtlTrait): QualType {
    AddRefness(t, t.ref)
  }

  /** `add_inv_quals<VT>`: as `add_quals`, but refness none becomes lvalue. */
  function AddInvQuals(t: PtlTrait): QualType {
    AddRefness(t, if t.ref == NoRef then LRef else t.ref)
  }

  /** `add_inv_quals` maps "no ref" to `&` and keeps any other ref; with
      `add_quals` it agrees with `quals` / `inv_quals` of copyable_function.hpp
      on all twelve forms. */
  lemma AddQualsAgreeWithTraits(f: Traits.Form)
    ensures AddInvQuals(PtlTraitsOf(f)).ref == (if PtlTraitsOf(f).ref == NoRef then LRef else PtlTraitsOf(f).ref)
    ensures AddQuals(PtlTraitsOf(f)) == Traits.TraitsOf(f).quals
    ensures AddInvQuals(PtlTraitsOf(f)) == Traits.TraitsOf(f).invQuals
  {
  }

  /** `is_callable_from<VT>`: both qualified invocations are nothrow-invocable
      when the signature is noexcept, invocable otherwise. */
  predicate IsCallableFrom(t: PtlTrait, ops: seq<Overload>) {
    if t.isNoexcept then
      Invocable(ops, ExprOf(AddQuals(t)), true) && Invocable(ops, ExprOf(AddInvQuals(t)), true)
    else
      Invocable(ops, ExprOf(AddQuals(t)), false) && Invocable(ops, ExprOf(AddInvQuals(t)), false)
  }

  /** The older wrapper accepts exactly what `move_only_function` and
      `copyable_function` accept for the same signature. */
  lemma IsCallableFromAgrees(f: Traits.Form, ops: seq<Overload>)
    ensures IsCallableFrom(PtlTraitsOf(f), ops) <==> Traits.IsCallableFrom(f, ops)
    ensures IsCallableFrom(PtlTraitsOf(f), ops) <==> Traits.Accepts(Traits.SigOf(f), ops)
  {
    Traits.IsCallableFromIsAccepts(f, ops);
  }

  /** The six call-operator templates, by (const, ref-qualifier), each declared
      `noexcept(noexcept_)`. */
  const CallTemplates: seq<(bool, Ref)> :=
    [(false, NoRef), (true, NoRef), (false, LRef), (true, LRef), (false, RRef), (true, RRef)]

  /** The call operators whose `enable_if` condition holds, from template k on. */
  function EnabledCallOperators(t: PtlTrait, k: nat := 0): (ops: seq<Overload>)
    requires k <= |CallTemplates|
    decreases |CallTemplates| - k
  {
    if k == |CallTemplates| then []
    else
      var (c, r) := CallTemplates[k];
      (if c == t.isConst && r == t.ref then [Overload(c, r, t.isNoexcept, false)] else [])
      + EnabledCallOperators(t, k + 1)
  }

  /** Exactly one call operator is enabled: the one whose const and ref
      qualifiers are the signature's, noexcept as the signature. So a
      `function<S>` is accepted by another `function<S>`. */
  lemma OneCallOperatorEnabled(f: Traits.Form)
    ensures EnabledCallOperators(PtlTraitsOf(f)) ==
            [Overload(PtlTraitsOf(f).isConst, PtlTraitsOf(f).ref, PtlTraitsOf(f).isNoexcept, false)]
    ensures EnabledCallOperators(PtlTraitsOf(f)) == [Traits.CallOperatorOf(f)]
    ensures IsCallableFrom(PtlTraitsOf(f), EnabledCallOperators(PtlTraitsOf(f)))
  {
    Traits.CallOperatorCarriesSignature(f, ObjExpr(false, false));
    IsCallableFromAgrees(f, [Traits.CallOperatorOf(f)]);
  }
}
