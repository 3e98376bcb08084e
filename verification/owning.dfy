/** `move_only_function<S>` and `copyable_function<S>` (inc/copyable_function.hpp)
    as operations on a world of wrapper objects sharing one heap.

    A wrapper object is a header (its class template, its signature form and
    its vtable's manager) plus a storage cell. The vtable's `dispatch` pointer
    is null exactly for the empty vtable, so it is not stored separately. */
module Owning {
  import opened Outcomes
  import opened Qualifiers
  import Traits
  import opened Storage
  import Arguments
  import opened Manager

  /** The class template of a wrapper object. */
  datatype Kind = MoveOnlyFunction | CopyableFunction

  /** A wrapper object's C++ type and its `vptr`. */
  datatype Header = Header(kind: Kind, form: Traits.Form, mgr: Manager)

  type FnWorld = World<Header>

  /** What construction guarantees about a non-empty wrapper: its signature
      accepts the payload type, a manager that can copy was built for a
      copyable type, and a `copyable_function` always has one that can. */
  predicate Admissible(hd: Header) {
    match hd.mgr
    case Nop => true
    case Owning(c, t) =>
      && Traits.Accepts(Traits.SigOf(hd.form), t.calls)
      && (c ==> t.copyable)
      && (hd.kind == CopyableFunction ==> c)
  }

  /** The class invariant of wrapper i: its cell holds what its manager
      expects, and its header is admissible. */
  predicate WrapperOk(w: FnWorld, i: Id) {
    && i in w.headers && i in w.cells
    && Holds(w.headers[i].mgr, w.cells[i], w.heap)
    && Admissible(w.headers[i])
  }

  /** The class invariant of every wrapper, and a leak-free heap. */
  predicate Valid(w: FnWorld) {
    && w.headers.Keys == w.cells.Keys
    && HeapOk(w.cells, w.heap)
    && forall i {:trigger WrapperOk(w, i)} | i in w.headers :: WrapperOk(w, i)
  }

  /** The target object a wrapper holds, if any. */
  function Payload(w: FnWorld, i: Id): (p: Option<Obj>)
    requires Valid(w) && i in w.headers
    ensures p.Some? <==> w.headers[i].mgr.Owning?
    ensures p.Some? ==> p.value.ty == w.headers[i].mgr.ty
  {
    assert WrapperOk(w, i);
    match w.headers[i].mgr
    case Nop => None
    case Owning(_, t) => Some(Housed(t, w.cells[i], w.heap))
  }

  /** Every wrapper outside ids is still alive with the same header, cell and
      target object. */
  predicate Untouched(w: FnWorld, w': FnWorld, ids: set<Id>)
    requires Valid(w) && Valid(w')
  {
    forall k {:trigger Kept(w, w', k)} | k in w.headers && k !in ids :: Kept(w, w', k)
  }

  /** Wrapper k is alive in w' with the header, cell and target it had in w. */
  predicate Kept(w: FnWorld, w': FnWorld, k: Id)
    requires Valid(w) && Valid(w') && k in w.headers
  {
    && k in w'.headers
    && w'.headers[k] == w.headers[k]
    && w'.cells[k] == w.cells[k]
    && Payload(w', k) == Payload(w, k)
  }

  /** An update that changes only the wrappers in ids, keeps the heap
      leak-free and never rewrites a heap object in place keeps every other
      wrapper valid and unchanged. */
  lemma Reframe(w: FnWorld, w': FnWorld, ids: set<Id>)
    requires Valid(w)
    requires w'.headers.Keys == w'.cells.Keys
    requires HeapOk(w'.cells, w'.heap)
    requires Stable(w.heap, w'.heap)
    requires forall k | k in w.headers && k !in ids :: k in w'.headers
    requires forall k | k in w'.headers && k !in ids ::
               k in w.headers && w'.headers[k] == w.headers[k] && w'.cells[k] == w.cells[k]
    requires forall k | k in w'.headers && k in ids ::
               Holds(w'.headers[k].mgr, w'.cells[k], w'.heap) && Admissible(w'.headers[k])
    ensures Valid(w')
    ensures Untouched(w, w', ids)
  {
    forall k | k in w'.headers
      ensures WrapperOk(w', k)
    {
      if k !in ids {
        assert WrapperOk(w, k);
        if w.cells[k].Boxed? {
          assert w.cells[k].addr in Owned(w'.cells);
        }
        HoldsStable(w.headers[k].mgr, w.cells[k], w.heap, w'.heap);
      }
    }
    forall k | k in w.headers && k !in ids
      ensures Kept(w, w', k)
    {
      assert WrapperOk(w, k);
      if w.cells[k].Boxed? {
        assert w.cells[k].addr in Owned(w'.cells);
      }
      HoldsStable(w.headers[k].mgr, w.cells[k], w.heap, w'.heap);
    }
  }

  /** Two updates in a row leave untouched what neither of them touched. */
  lemma UntouchedChain(w: FnWorld, w1: FnWorld, w2: FnWorld, ids1: set<Id>, ids2: set<Id>)
    requires Valid(w) && Valid(w1) && Valid(w2)
    requires Untouched(w, w1, ids1) && Untouched(w1, w2, ids2)
    ensures Untouched(w, w2, ids1 + ids2)
  {
    forall k | k in w.headers && k !in ids1 + ids2
      ensures Kept(w, w2, k)
    {
      assert Kept(w, w1, k);
      assert Kept(w1, w2, k);
    }
  }

  /** The world with wrapper i's header and cell replaced and the heap
      replaced by h. */
  function Put(w: FnWorld, i: Id, hd: Header, c: Cell, h: Heap): FnWorld {
    World(w.headers[i := hd], w.cells[i := c], h)
  }

  /** Replacing one wrapper by a valid one whose cell owns nothing or a fresh
      address, while the heap loses exactly the old cell's object, keeps the
      world valid and every other wrapper as it was. */
  lemma PutValid(w: FnWorld, i: Id, hd: Header, c: Cell, h: Heap)
    requires Valid(w)
    requires c.Boxed? ==> c.addr !in w.heap.objs
    requires h.objs.Keys == (w.heap.objs.Keys - AddrAt(w.cells, i)) + AddrOf(c)
    requires Bounded(h) && Stable(w.heap, h)
    requires Holds(hd.mgr, c, h) && Admissible(hd)
    ensures Valid(Put(w, i, hd, c, h))
    ensures Put(w, i, hd, c, h).headers.Keys == w.headers.Keys + {i}
    ensures i in w.headers ==> Put(w, i, hd, c, h).headers.Keys == w.headers.Keys
    ensures Payload(Put(w, i, hd, c, h), i) == if hd.mgr.Owning? then Some(Housed(hd.mgr.ty, c, h)) else None
    ensures Untouched(w, Put(w, i, hd, c, h), {i})
  {
    var w' := Put(w, i, hd, c, h);
    assert w'.headers.Keys == w.headers.Keys + {i} == w'.cells.Keys;
    HeapOkPut(w.cells, w.heap, i, c, h);
    Reframe(w, w', {i});
    assert WrapperOk(w', i);
  }

  /** Wrapper d takes over wrapper s's cell as it is, under header hd, and s
      becomes empty; the heap is untouched. */
  function Moved(w: FnWorld, d: Id, s: Id, hd: Header): FnWorld
    requires s in w.headers && s in w.cells
  {
    World(w.headers[d := hd][s := w.headers[s].(mgr := Nop)], w.cells[d := w.cells[s]][s := Vacant], w.heap)
  }

  lemma MovedValid(w: FnWorld, d: Id, s: Id, hd: Header)
    requires Valid(w) && s in w.headers && d != s
    requires d in w.headers ==> w.headers[d].mgr.Nop?
    requires hd.mgr == w.headers[s].mgr && Admissible(hd)
    ensures Valid(Moved(w, d, s, hd))
    ensures Moved(w, d, s, hd).headers.Keys == w.headers.Keys + {d}
    ensures Payload(Moved(w, d, s, hd), d) == Payload(w, s)
    ensures Untouched(w, Moved(w, d, s, hd), {d, s})
  {
    assert WrapperOk(w, s);
    if d in w.headers {
      assert WrapperOk(w, d);
    }
    HeapOkHandOff(w.cells, w.heap, d, s);
    Reframe(w, Moved(w, d, s, hd), {d, s});
  }

  /** Wrappers a and b trade headers and cells; the heap is untouched. */
  function Exchanged(w: FnWorld, a: Id, b: Id): FnWorld
    requires a in w.headers && b in w.headers && a in w.cells && b in w.cells
  {
    World(w.headers[a := w.headers[b]][b := w.headers[a]], w.cells[a := w.cells[b]][b := w.cells[a]], w.heap)
  }

  lemma ExchangedValid(w: FnWorld, a: Id, b: Id)
    requires Valid(w) && a in w.headers && b in w.headers && a != b
    ensures Valid(Exchanged(w, a, b))
    ensures Exchanged(w, a, b).headers.Keys == w.headers.Keys
    ensures Payload(Exchanged(w, a, b), a) == Payload(w, b)
    ensures Payload(Exchanged(w, a, b), b) == Payload(w, a)
    ensures Untouched(w, Exchanged(w, a, b), {a, b})
  {
    var w' := Exchanged(w, a, b);
    assert WrapperOk(w, a) && WrapperOk(w, b);
    assert w'.headers.Keys == w.headers.Keys == w'.cells.Keys;
    HeapOkExchange(w.cells, w.heap, a, b);
    Reframe(w, w', {a, b});
  }


  /** A wrapper's guarantees do not depend on which class template holds
      them, except that a `copyable_function` needs a manager that copies. */
  lemma AdmissibleRetyped(hd: Header, kind: Kind)
    requires Admissible(hd)
    requires kind == CopyableFunction ==> hd.kind == CopyableFunction
    ensures Admissible(hd.(kind := kind))
  {
  }

  /** `operator bool`: the dispatch pointer is non-null. */
  function OperatorBool(w: FnWorld, i: Id): (b: bool)
    requires Valid(w) && i in w.headers
    ensures b <==> Payload(w, i).Some?
  {
    w.headers[i].mgr.Owning?
  }

  /** Where a wrapper keeps its target is fixed by the target's type alone:
      inside the cell exactly when `sbo<T>` holds, behind a pointer to a live
      heap object otherwise. Every operation keeps `Valid`, so no operation
      ever moves a target between the two places. */
  lemma PlacementFollowsSbo(w: FnWorld, i: Id)
    requires Valid(w) && i in w.headers && w.headers[i].mgr.Owning?
    ensures w.cells[i].Inline? <==> Sbo(w.headers[i].mgr.ty)
    ensures w.cells[i].Boxed? <==> !Sbo(w.headers[i].mgr.ty)
    ensures w.cells[i].Boxed? ==> w.cells[i].addr in w.heap.objs
  {
    assert WrapperOk(w, i);
  }

  /** `operator==(self, nullptr)`. */
  function EqualsNull(w: FnWorld, i: Id): (b: bool)
    requires Valid(w) && i in w.headers
    ensures b <==> Payload(w, i).None?
  {
    !OperatorBool(w, i)
  }

  /** The default constructor and the `nullptr_t` constructor: an empty
      wrapper, nothing allocated. */
  function DefaultConstruct(w: FnWorld, i: Id, kind: Kind, form: Traits.Form): (w': FnWorld)
    requires Valid(w) && i !in w.headers
    ensures Valid(w') && w'.headers.Keys == w.headers.Keys + {i}
    ensures w'.headers[i].kind == kind && w'.headers[i].form == form
    ensures Payload(w', i).None?
    ensures w'.heap == w.heap
    ensures Untouched(w, w', {i})
  {
    PutValid(w, i, Header(kind, form, Nop), Vacant, w.heap);
    Put(w, i, Header(kind, form, Nop), Vacant, w.heap)
  }

  /** The class template of a wrapper, as it appears in an argument's type. */
  function TemplateOf(kind: Kind): Arguments.Template {
    match kind
    case MoveOnlyFunction => Arguments.MoveOnlyFunction
    case CopyableFunction => Arguments.CopyableFunction
  }

  /** Why a constructor does not produce a wrapper: its constraint excludes
      the argument's type (another constructor or a conversion handles it),
      the target is not callable as the signature demands, or the
      `static_assert` that a `copyable_function` target be copy-constructible
      fails, all at compile time; or, at run time, the target's constructor
      or its allocation throws. */
  datatype CtorError = NotThisConstructor | NotCallable | NotCopyConstructible | ConstructorThrew

  /** The converting constructor's type exclusions: the wrapper's own type,
      and, for `move_only_function`, any `copyable_function` specialisation
      (those convert through `copyable_function`'s conversion operators). */
  predicate Excluded(kind: Kind, form: Traits.Form, shape: Arguments.Shape) {
    && shape.WrapperObject?
    && ((shape.template == TemplateOf(kind) && shape.form == form)
        || (kind == MoveOnlyFunction && shape.template == Arguments.CopyableFunction))
  }

  /** `std::is_constructible_v<wrapper, F>` together with the constructor body
      compiling. */
  predicate Constructible(kind: Kind, form: Traits.Form, arg: Arguments.Arg) {
    && !Excluded(kind, form, arg.shape)
    && Traits.Accepts(Traits.SigOf(form), arg.ty.calls)
    && (kind == CopyableFunction ==> arg.ty.copyable)
  }

  /** The converting constructor's body, building the new manager and cell,
      with `isNull` the outcome of its null test: a null argument yields the
      empty vtable, anything else is emplaced, which throws when `fails`. */
  function BuildCell(kind: Kind, form: Traits.Form, arg: Arguments.Arg, isNull: bool, h: Heap, fails: bool)
    : (r: Result<(Manager, Cell, Heap), CtorError>)
    requires Bounded(h)
    ensures r.Ok? <==> Constructible(kind, form, arg) && (isNull || !fails)
    ensures r == Err(ConstructorThrew) <==> Constructible(kind, form, arg) && !isNull && fails
    ensures r.Ok? ==>
              && Holds(r.value.0, r.value.1, r.value.2)
              && Admissible(Header(kind, form, r.value.0))
              && Grows(h, r.value.2, r.value.1)
              && (r.value.0.Nop? <==> isNull)
              && (r.value.0.Owning? ==> r.value.0.ty == arg.ty && Housed(arg.ty, r.value.1, r.value.2) == Obj(arg.ty, Value(arg.v)))
  {
    Traits.IsCallableFromIsAccepts(form, arg.ty.calls);
    if Excluded(kind, form, arg.shape) then Err(NotThisConstructor)
    else if !Traits.IsCallableFrom(form, arg.ty.calls) then Err(NotCallable)
    else if kind == CopyableFunction && !arg.ty.copyable then Err(NotCopyConstructible)
    else if isNull then Ok((Nop, Vacant, h))
    else
      match Emplace(kind == CopyableFunction, arg.ty, arg.v, h, fails)
      case Err(_) => Err(ConstructorThrew)
      case Ok(built) => Ok(built)
  }

  /** The converting constructor's body with the null test it is meant to
      have: every null argument, however it is passed, gives an empty
      wrapper. */
  function ConstructCell(kind: Kind, form: Traits.Form, arg: Arguments.Arg, h: Heap, fails: bool)
    : (r: Result<(Manager, Cell, Heap), CtorError>)
    requires Bounded(h)
    ensures r.Ok? <==> Constructible(kind, form, arg) && (Arguments.NullArgument(TemplateOf(kind), arg.shape) || !fails)
    ensures r.Ok? ==> (r.value.0.Nop? <==> Arguments.NullArgument(TemplateOf(kind), arg.shape))
  {
    BuildCell(kind, form, arg, Arguments.NullArgument(TemplateOf(kind), arg.shape), h, fails)
  }

  /** The converting constructor's body as written: the null test is reached
      only for the arguments `Arguments.NullTestAsWritten` describes. */
  function ConstructCellAsWritten(kind: Kind, form: Traits.Form, arg: Arguments.Arg, h: Heap, fails: bool)
    : (r: Result<(Manager, Cell, Heap), CtorError>)
    requires Bounded(h)
    ensures r.Ok? <==> Constructible(kind, form, arg) && (Arguments.NullTestAsWritten(TemplateOf(kind), arg.shape) || !fails)
    ensures r.Ok? ==> (r.value.0.Nop? <==> Arguments.NullTestAsWritten(TemplateOf(kind), arg.shape))
  {
    BuildCell(kind, form, arg, Arguments.NullTestAsWritten(TemplateOf(kind), arg.shape), h, fails)
  }

  /** A null function pointer passed as an lvalue to a constructor that
      accepts it: as written, the wrapper is not empty (it holds the null
      pointer, and `operator bool` is true), while the intended constructor
      makes it empty. */
  lemma LvalueNullPointerMakesNonEmptyWrapper(kind: Kind, form: Traits.Form, arg: Arguments.Arg, h: Heap)
    requires Bounded(h) && Constructible(kind, form, arg)
    requires arg.shape == Arguments.FunctionPointer(true, true)
    ensures ConstructCellAsWritten(kind, form, arg, h, false).value.0.Owning?
    ensures ConstructCell(kind, form, arg, h, false).value.0.Nop?
  {
    Arguments.LvalueNullPointerSlipsThrough(TemplateOf(kind));
  }

  /** The converting constructor `wrapper(F&&)`, with the null test it is
      meant to have. When emplacing the target throws, no wrapper comes into
      being and the world is as it was. */
  function Construct(w: FnWorld, i: Id, kind: Kind, form: Traits.Form, arg: Arguments.Arg, fails: bool)
    : (r: Result<FnWorld, CtorError>)
    requires Valid(w) && i !in w.headers
    ensures r.Ok? <==> Constructible(kind, form, arg) && (Arguments.NullArgument(TemplateOf(kind), arg.shape) || !fails)
    ensures r == Err(ConstructorThrew) <==>
              Constructible(kind, form, arg) && !Arguments.NullArgument(TemplateOf(kind), arg.shape) && fails
    ensures r.Ok? ==>
              && Valid(r.value) && r.value.headers.Keys == w.headers.Keys + {i}
              && r.value.headers[i].kind == kind && r.value.headers[i].form == form
              && (Payload(r.value, i).None? <==> Arguments.NullArgument(TemplateOf(kind), arg.shape))
              && (Payload(r.value, i).Some? ==> Payload(r.value, i).value == Obj(arg.ty, Value(arg.v)))
              && Grows(w.heap, r.value.heap, r.value.cells[i])
              && Untouched(w, r.value, {i})
  {
    match BuildCell(kind, form, arg, Arguments.NullArgument(TemplateOf(kind), arg.shape), w.heap, fails)
    case Err(e) => Err(e)
    case Ok((m, c, h)) =>
      PutValid(w, i, Header(kind, form, m), c, h);
      Ok(Put(w, i, Header(kind, form, m), c, h))
  }

  /** The `in_place_type_t<T>` constructors: T is constructed from the given
      value with no null check; the constraint is callability, and a
      `copyable_function` still asserts that T is copy-constructible.
      Constructing T may throw (`fails`), and then nothing is built. */
  function InPlaceConstruct(w: FnWorld, i: Id, kind: Kind, form: Traits.Form, t: PayloadType, v: nat, fails: bool)
    : (r: Result<FnWorld, CtorError>)
    requires Valid(w) && i !in w.headers
    ensures r.Ok? <==> Traits.Accepts(Traits.SigOf(form), t.calls) && (kind == CopyableFunction ==> t.copyable) && !fails
    ensures r == Err(ConstructorThrew) <==>
              Traits.Accepts(Traits.SigOf(form), t.calls) && (kind == CopyableFunction ==> t.copyable) && fails
    ensures r.Ok? ==>
              && Valid(r.value) && r.value.headers.Keys == w.headers.Keys + {i}
              && r.value.headers[i].kind == kind && r.value.headers[i].form == form
              && Payload(r.value, i) == Some(Obj(t, Value(v)))
              && Grows(w.heap, r.value.heap, r.value.cells[i])
              && Untouched(w, r.value, {i})
  {
    Traits.IsCallableFromIsAccepts(form, t.calls);
    if !Traits.IsCallableFrom(form, t.calls) then Err(NotCallable)
    else if kind == CopyableFunction && !t.copyable then Err(NotCopyConstructible)
    else
      match Emplace(kind == CopyableFunction, t, v, w.heap, fails)
      case Err(_) => Err(ConstructorThrew)
      case Ok((m, c, h)) =>
        PutValid(w, i, Header(kind, form, m), c, h);
        Ok(Put(w, i, Header(kind, form, m), c, h))
  }

  /** Wrapper d takes over wrapper s's target with one destructive move,
      under the class template `kind`; s is left empty. d is new or already
      empty. */
  function HandOver(w: FnWorld, d: Id, s: Id, kind: Kind): (w': FnWorld)
    requires Valid(w) && s in w.headers && d != s
    requires d in w.headers ==> w.headers[d].mgr.Nop?
    requires kind == CopyableFunction ==> w.headers[s].kind == CopyableFunction
    ensures Valid(w') && w'.headers.Keys == w.headers.Keys + {d}
    ensures w'.headers[d] == w.headers[s].(kind := kind)
    ensures w'.headers[s] == w.headers[s].(mgr := Nop)
    ensures w'.cells[d] == w.cells[s]
    ensures Payload(w', d) == Payload(w, s) && Payload(w', s).None?
    ensures w'.heap == w.heap
    ensures Untouched(w, w', {d, s})
  {
    assert WrapperOk(w, s);
    var hs := w.headers[s];
    var (cs, cd) := Relocate(hs.mgr, w.cells[s], w.heap);
    AdmissibleRetyped(hs, kind);
    MovedValid(w, d, s, hs.(kind := kind));
    var w' := World(w.headers[d := hs.(kind := kind)][s := hs.(mgr := Nop)], w.cells[d := cd][s := cs], w.heap);
    assert w' == Moved(w, d, s, hs.(kind := kind));
    w'
  }

  /** The move constructor (`vtable::move_ctor`): the new wrapper takes the
      source's content as it is, with no allocation, and the source becomes
      empty, whatever it held. */
  function MoveConstruct(w: FnWorld, d: Id, s: Id): (w': FnWorld)
    requires Valid(w) && s in w.headers && d !in w.headers
    ensures Valid(w') && w'.headers.Keys == w.headers.Keys + {d}
    ensures w'.headers[d] == w.headers[s]
    ensures Payload(w', d) == Payload(w, s)
    ensures !OperatorBool(w', s)
    ensures w'.cells[d] == w.cells[s] && w'.heap == w.heap
    ensures Untouched(w, w', {d, s})
  {
    HandOver(w, d, s, w.headers[s].kind)
  }

  /** What the moved-from test of test/copyable_function.cpp expects of a
      move construction: the source stays non-empty exactly when it held an
      inline target (the free function, the function pointer and the small
      functor), and becomes empty when its target lived on the heap. */
  predicate MovedFromAsTested(w: FnWorld, w': FnWorld, s: Id)
    requires Valid(w) && Valid(w') && s in w.headers && s in w'.headers
  {
    OperatorBool(w', s) <==> OperatorBool(w, s) && Sbo(w.headers[s].mgr.ty)
  }

  /** The move constructor empties every source, so for a source with an
      inline target the expectation of the test fails. */
  lemma MoveFailsTheMovedFromTest(w: FnWorld, d: Id, s: Id)
    requires Valid(w) && s in w.headers && d !in w.headers
    requires w.headers[s].mgr.Owning? && Sbo(w.headers[s].mgr.ty)
    ensures !MovedFromAsTested(w, MoveConstruct(w, d, s), s)
  {
    assert WrapperOk(w, s);
  }

  /** The destructor's effect on a wrapper that stays in the world: its
      target is destroyed and freed, and its vtable becomes the empty one. */
  function Clear(w: FnWorld, i: Id): (w': FnWorld)
    requires Valid(w) && i in w.headers
    ensures Valid(w') && w'.headers.Keys == w.headers.Keys
    ensures w'.headers[i] == w.headers[i].(mgr := Nop)
    ensures w'.heap.objs == w.heap.objs - AddrOf(w.cells[i])
    ensures Untouched(w, w', {i})
  {
    assert WrapperOk(w, i);
    var hd := w.headers[i];
    var (c, h) := Destroy(hd.mgr, w.cells[i], w.heap);
    PutValid(w, i, hd.(mgr := Nop), c, h);
    Put(w, i, hd.(mgr := Nop), c, h)
  }

  /** Move assignment (`vtable::move_assign`): self-assignment changes
      nothing; otherwise the old target is destroyed first (and freed), then
      the source's content moves over and the source becomes empty. */
  function MoveAssign(w: FnWorld, d: Id, s: Id): (w': FnWorld)
    requires Valid(w) && d in w.headers && s in w.headers
    requires w.headers[d].kind == w.headers[s].kind && w.headers[d].form == w.headers[s].form
    ensures Valid(w') && w'.headers.Keys == w.headers.Keys
    ensures d == s ==> w' == w
    ensures d != s ==>
              && w'.headers[d] == w.headers[s]
              && Payload(w', d) == Payload(w, s)
              && !OperatorBool(w', s)
              && w'.heap.objs == w.heap.objs - AddrOf(w.cells[d])
              && Untouched(w, w', {d, s})
  {
    if d == s then w
    else
      var w1 := Clear(w, d);
      var w' := HandOver(w1, d, s, w.headers[s].kind);
      UntouchedChain(w, w1, w', {d}, {d, s});
      assert {d} + {d, s} == {d, s};
      w'
  }

  /** `vtable::swap`: three destructive moves through a temporary, then the
      vtables are exchanged, so the two wrappers trade contents verbatim;
      swapping a wrapper with itself changes nothing. No allocation, no copy. */
  function Swap(w: FnWorld, a: Id, b: Id): (w': FnWorld)
    requires Valid(w) && a in w.headers && b in w.headers
    requires w.headers[a].kind == w.headers[b].kind && w.headers[a].form == w.headers[b].form
    ensures Valid(w') && w'.headers.Keys == w.headers.Keys
    ensures w'.headers == w.headers[a := w.headers[b]][b := w.headers[a]]
    ensures w'.cells == w.cells[a := w.cells[b]][b := w.cells[a]]
    ensures Payload(w', a) == Payload(w, b) && Payload(w', b) == Payload(w, a)
    ensures w'.heap == w.heap
    ensures Untouched(w, w', {a, b})
  {
    if a == b then
      assert w.headers[a := w.headers[b]][b := w.headers[a]] == w.headers;
      assert w.cells[a := w.cells[b]][b := w.cells[a]] == w.cells;
      w
    else
      assert WrapperOk(w, a) && WrapperOk(w, b);
      var ha := w.headers[a];
      var hb := w.headers[b];
      var (ca, cb) := SwapCells(ha.mgr, w.cells[a], hb.mgr, w.cells[b], w.heap);
      assert ha.(mgr := hb.mgr) == hb && hb.(mgr := ha.mgr) == ha;
      ExchangedValid(w, a, b);
      World(w.headers[a := ha.(mgr := hb.mgr)][b := hb.(mgr := ha.mgr)], w.cells[a := ca][b := cb], w.heap)
  }

  /** Swapping twice restores the world. */
  lemma SwapTwiceIsIdentity(w: FnWorld, a: Id, b: Id)
    requires Valid(w) && a in w.headers && b in w.headers
    requires w.headers[a].kind == w.headers[b].kind && w.headers[a].form == w.headers[b].form
    ensures Swap(Swap(w, a, b), a, b) == w
  {
    ExchangeTwice(w.headers, a, b);
    ExchangeTwice(w.cells, a, b);
  }

  /** `operator=(nullptr_t)`: when non-empty, a default-constructed temporary
      is swapped in and then destroyed, taking the old target with it. */
  function NullAssign(w: FnWorld, i: Id): (w': FnWorld)
    requires Valid(w) && i in w.headers
    ensures Valid(w') && w'.headers.Keys == w.headers.Keys
    ensures w'.headers[i] == w.headers[i].(mgr := Nop) && !OperatorBool(w', i)
    ensures w'.heap.objs == w.heap.objs - AddrOf(w.cells[i])
    ensures !OperatorBool(w, i) ==> w' == w
    ensures Untouched(w, w', {i})
  {
    assert WrapperOk(w, i);
    if !OperatorBool(w, i) then w
    else
      var hd := w.headers[i];
      var (c, h) := Supplant(hd.mgr, w.cells[i], Nop, Vacant, w.heap, w.heap);
      PutValid(w, i, hd.(mgr := Nop), c, h);
      Put(w, i, hd.(mgr := Nop), c, h)
  }

  /** `operator=(F&&)` for an argument the converting constructor takes: a
      temporary is constructed from the argument, swapped in, and destroyed
      with the old target. A null argument of a checked type empties the
      wrapper. When constructing the temporary throws, the wrapper is left
      as it was. An argument that is a wrapper of the destination's own
      type, or a `copyable_function` assigned to a `move_only_function` of
      the same signature, never reaches the converting constructor (it is
      `Excluded`); `AssignWrapper` models those assignments. */
  function Assign(w: FnWorld, i: Id, arg: Arguments.Arg, fails: bool): (r: Result<FnWorld, CtorError>)
    requires Valid(w) && i in w.headers
    ensures r.Ok? <==>
              && Constructible(w.headers[i].kind, w.headers[i].form, arg)
              && (Arguments.NullArgument(TemplateOf(w.headers[i].kind), arg.shape) || !fails)
    ensures r == Err(ConstructorThrew) <==>
              && Constructible(w.headers[i].kind, w.headers[i].form, arg)
              && !Arguments.NullArgument(TemplateOf(w.headers[i].kind), arg.shape) && fails
    ensures r.Ok? ==>
              && Valid(r.value) && r.value.headers.Keys == w.headers.Keys
              && r.value.headers[i].kind == w.headers[i].kind && r.value.headers[i].form == w.headers[i].form
              && (Payload(r.value, i).None? <==> Arguments.NullArgument(TemplateOf(w.headers[i].kind), arg.shape))
              && (Payload(r.value, i).Some? ==> Payload(r.value, i).value == Obj(arg.ty, Value(arg.v)))
              && r.value.heap.objs.Keys == (w.heap.objs.Keys - AddrOf(w.cells[i])) + AddrOf(r.value.cells[i])
              && Untouched(w, r.value, {i})
  {
    assert WrapperOk(w, i);
    var hd := w.headers[i];
    match BuildCell(hd.kind, hd.form, arg, Arguments.NullArgument(TemplateOf(hd.kind), arg.shape), w.heap, fails)
    case Err(e) => Err(e)
    case Ok((m, c, h1)) =>
      var (cell, h2) := Supplant(hd.mgr, w.cells[i], m, c, w.heap, h1);
      PutValid(w, i, hd.(mgr := m), cell, h2);
      Ok(Put(w, i, hd.(mgr := m), cell, h2))
  }

  /** The destructor: the target is destroyed and freed, nothing else changes. */
  function DestroyWrapper(w: FnWorld, i: Id): (w': FnWorld)
    requires Valid(w) && i in w.headers
    ensures Valid(w') && w'.headers.Keys == w.headers.Keys - {i}
    ensures w'.heap.objs == w.heap.objs - AddrOf(w.cells[i])
    ensures Untouched(w, w', {i})
  {
    assert WrapperOk(w, i);
    var hd := w.headers[i];
    var (_, h) := Destroy(hd.mgr, w.cells[i], w.heap);
    var w' := World(w.headers - {i}, w.cells - {i}, h);
    HeapOkRemove(w.cells, w.heap, i, h);
    Reframe(w, w', {i});
    w'
  }

  /** The copy constructor of `copyable_function`: the new wrapper shares the
      source's vtable and holds an equal target of its own; only a copy that
      can throw may throw, and then nothing is constructed. */
  function CopyConstruct(w: FnWorld, d: Id, s: Id, fails: bool): (r: Result<FnWorld, Thrown>)
    requires Valid(w) && s in w.headers && d !in w.headers
    requires w.headers[s].kind == CopyableFunction
    ensures r.Err? <==> fails && CopyMayThrow(w.headers[s].mgr)
    ensures r.Ok? ==>
              && Valid(r.value) && r.value.headers.Keys == w.headers.Keys + {d}
              && r.value.headers[d] == w.headers[s]
              && Payload(r.value, d) == Payload(w, s)
              && Grows(w.heap, r.value.heap, r.value.cells[d])
              && Untouched(w, r.value, {d})
  {
    assert WrapperOk(w, s);
    var hs := w.headers[s];
    match CopyCell(hs.mgr, w.cells[s], w.heap, fails)
    case Err(e) => Err(e)
    case Ok((c, h)) =>
      PutValid(w, d, hs, c, h);
      Ok(Put(w, d, hs, c, h))
  }

  /** Copy assignment of `copyable_function`, with the staged branch's
      relocation corrected to `destructive_move` (`Manager.CopyOver`; as
      written the operator is ill-formed, `Manager.CopyAssignIsIllFormed`):
      self-assignment changes nothing;
      a copy that cannot throw is made in place, one that can is staged
      through a temporary, so a throw leaves the world as it was; afterwards
      the destination shares the source's vtable and holds an equal target,
      and its old target is freed. */
  function CopyAssign(w: FnWorld, d: Id, s: Id, fails: bool): (r: Result<FnWorld, Thrown>)
    requires Valid(w) && d in w.headers && s in w.headers
    requires w.headers[d].kind == CopyableFunction && w.headers[s].kind == CopyableFunction
    requires w.headers[d].form == w.headers[s].form
    ensures r.Err? <==> d != s && fails && CopyMayThrow(w.headers[s].mgr)
    ensures d == s ==> r == Ok(w)
    ensures r.Ok? && d != s ==>
              && Valid(r.value) && r.value.headers.Keys == w.headers.Keys
              && r.value.headers[d] == w.headers[s]
              && Payload(r.value, d) == Payload(w, s)
              && r.value.heap.objs.Keys == (w.heap.objs.Keys - AddrOf(w.cells[d])) + AddrOf(r.value.cells[d])
              && Untouched(w, r.value, {d})
  {
    if d == s then Ok(w)
    else
      assert WrapperOk(w, s) && WrapperOk(w, d);
      var hs := w.headers[s];
      var hd := w.headers[d];
      assert w.cells[s].Boxed? && w.cells[d].Boxed? ==> w.cells[s].addr != w.cells[d].addr;
      match CopyOver(hd.mgr, w.cells[d], hs.mgr, w.cells[s], w.heap, fails)
      case Err(e) => Err(e)
      case Ok((c, h)) =>
        PutValid(w, d, hs, c, h);
        Ok(Put(w, d, hs, c, h))
  }

  /** `operator move_only_function<S>() const &`: a new `move_only_function`
      holding a copy of the target under the same vtable. */
  function ConvertCopy(w: FnWorld, d: Id, s: Id, fails: bool): (r: Result<FnWorld, Thrown>)
    requires Valid(w) && s in w.headers && d !in w.headers
    requires w.headers[s].kind == CopyableFunction
    ensures r.Err? <==> fails && CopyMayThrow(w.headers[s].mgr)
    ensures r.Ok? ==>
              && Valid(r.value) && r.value.headers.Keys == w.headers.Keys + {d}
              && r.value.headers[d] == w.headers[s].(kind := MoveOnlyFunction)
              && Payload(r.value, d) == Payload(w, s)
              && Grows(w.heap, r.value.heap, r.value.cells[d])
              && Untouched(w, r.value, {d})
  {
    assert WrapperOk(w, s);
    var hs := w.headers[s];
    match CopyCell(hs.mgr, w.cells[s], w.heap, fails)
    case Err(e) => Err(e)
    case Ok((c, h)) =>
      AdmissibleRetyped(hs, MoveOnlyFunction);
      PutValid(w, d, hs.(kind := MoveOnlyFunction), c, h);
      Ok(Put(w, d, hs.(kind := MoveOnlyFunction), c, h))
  }

  /** `operator move_only_function<S>() &&`: the target moves into a new
      `move_only_function` under the same vtable, and the source becomes
      empty. */
  function ConvertMove(w: FnWorld, d: Id, s: Id): (w': FnWorld)
    requires Valid(w) && s in w.headers && d !in w.headers
    requires w.headers[s].kind == CopyableFunction
    ensures Valid(w') && w'.headers.Keys == w.headers.Keys + {d}
    ensures w'.headers[d] == w.headers[s].(kind := MoveOnlyFunction)
    ensures Payload(w', d) == Payload(w, s) && !OperatorBool(w', s)
    ensures w'.cells[d] == w.cells[s] && w'.heap == w.heap
    ensures Untouched(w, w', {d, s})
  {
    HandOver(w, d, s, MoveOnlyFunction)
  }

  /** The value category and constness of the source expression of an
      assignment `d = s`. */
  datatype Category = Lvalue | ConstLvalue | Xvalue | ConstXvalue

  /** The assignment operator selected for `d = s`, s a wrapper with d's
      signature, and what its body does with s. */
  datatype Assignment =
    | MoveAssignment   // `operator=(W&&)`
    | CopyAssignment   // `operator=(const W&)`
    | CopyThenSwap     // `operator=(F&&)`, the temporary copy-constructed from s
    | ConvertThenSwap  // `operator=(F&&)`, the temporary built by `operator move_only_function() &&`
    | ConvertCopyThenSwap  // `operator=(F&&)`, the temporary built by `operator move_only_function() const &`
    | NoAssignment     // ill-formed

  /** Overload resolution among a wrapper's assignment operators for a source
      wrapper of the same signature. Within one class a non-const rvalue and
      a const lvalue match `operator=(W&&)` and `operator=(const W&)` exactly,
      and a non-template beats the template `operator=(F&&)`; a non-const
      lvalue (no const added) and a const rvalue (rvalue bound to an rvalue
      reference) rank better with the template, whose temporary `W{s}` then
      needs the copy constructor, deleted in `move_only_function`. A
      `move_only_function` is assigned a `copyable_function` of any category
      through the template: its converting constructor excludes
      `copyable_function`, so the temporary `move_only_function{s}` is
      initialised by the move constructor from the result of a conversion
      operator. A single-argument direct-initialisation lets that parameter
      use explicit conversion functions too, so a non-const rvalue takes
      `operator move_only_function() &&` and every other source `operator
      move_only_function() const &`. A `copyable_function` is never assigned
      a `move_only_function`: the converting constructor would need to copy
      it. */
  function SelectAssignment(target: Kind, source: Kind, cat: Category): (a: Assignment)
    ensures a == CopyAssignment <==> target == CopyableFunction && source == CopyableFunction && cat == ConstLvalue
    ensures target == MoveOnlyFunction ==> (a != NoAssignment <==> cat == Xvalue || source == CopyableFunction)
    ensures target == CopyableFunction ==> (a != NoAssignment <==> source == CopyableFunction)
    ensures a == ConvertThenSwap || a == ConvertCopyThenSwap <==> target != source && a != NoAssignment
    ensures Moves(a) <==> a != NoAssignment && cat == Xvalue
  {
    if target == source then
      match cat
      case Xvalue => MoveAssignment
      case ConstLvalue => if target == CopyableFunction then CopyAssignment else NoAssignment
      case _ => if target == CopyableFunction then CopyThenSwap else NoAssignment
    else if target == MoveOnlyFunction then
      assert source == CopyableFunction;
      if cat == Xvalue then ConvertThenSwap else ConvertCopyThenSwap
    else NoAssignment
  }

  /** Of the ways to assign one `copyable_function` from another of the same
      signature, only a const lvalue source selects `operator=(const
      copyable_function&)`, the operator that is ill-formed as written
      (`Manager.CopyAssignIsIllFormed`); a non-const lvalue or a const rvalue
      is copied through `operator=(F&&)`, and a non-const rvalue is moved. */
  lemma OnlyConstLvaluesReachCopyAssignment(cat: Category)
    ensures SelectAssignment(CopyableFunction, CopyableFunction, cat) == CopyAssignment <==> cat == ConstLvalue
    ensures cat == Lvalue || cat == ConstXvalue ==> SelectAssignment(CopyableFunction, CopyableFunction, cat) == CopyThenSwap
    ensures SelectAssignment(CopyableFunction, CopyableFunction, Xvalue) == MoveAssignment
  {
  }

  /** A `move_only_function` accepts a `copyable_function` of its signature
      in every category: it copies the target through the `const &`
      conversion unless the source is a non-const rvalue, which it moves
      from. */
  lemma MoveOnlyTakesEveryCopyableSource(cat: Category)
    ensures SelectAssignment(MoveOnlyFunction, CopyableFunction, cat) != NoAssignment
    ensures SelectAssignment(MoveOnlyFunction, CopyableFunction, cat) == ConvertCopyThenSwap <==> cat != Xvalue
  {
  }

  /** The selected assignment copies s's target: always through the template,
      and through the copy assignment unless it is a self-assignment. */
  predicate MakesCopy(a: Assignment, selfAssign: bool) {
    a == CopyThenSwap || a == ConvertCopyThenSwap || (a == CopyAssignment && !selfAssign)
  }

  /** The selected assignment takes s's target away from it. */
  predicate Moves(a: Assignment) {
    a == MoveAssignment || a == ConvertThenSwap
  }

  /** Why `d = s` does not assign: no operator is usable, or copying the
      target threw (and nothing changed). */
  datatype AssignError = Unassignable | AssignmentThrew

  /** `W{s}.swap(d)` for a `copyable_function` s, and the temporary's
      destruction, where W is d's class: the copy constructor, or for a
      `move_only_function` d the `const &` conversion (whose result the move
      constructor takes over), copies s's target under s's vtable. The copy
      replaces d's target, which is destroyed and freed; s is left alone.
      Copying may throw, and then nothing has changed. */
  function CopyThenSwapIn(w: FnWorld, d: Id, s: Id, fails: bool): (r: Result<FnWorld, Thrown>)
    requires Valid(w) && d in w.headers && s in w.headers
    requires w.headers[s].kind == CopyableFunction
    requires w.headers[d].form == w.headers[s].form
    ensures r.Err? <==> fails && CopyMayThrow(w.headers[s].mgr)
    ensures r.Ok? ==>
              && Valid(r.value) && r.value.headers.Keys == w.headers.Keys
              && r.value.headers[d] == w.headers[s].(kind := w.headers[d].kind)
              && Payload(r.value, d) == Payload(w, s)
              && r.value.heap.objs.Keys == (w.heap.objs.Keys - AddrOf(w.cells[d])) + AddrOf(r.value.cells[d])
              && Untouched(w, r.value, {d})
  {
    assert WrapperOk(w, s) && WrapperOk(w, d);
    var hd := w.headers[d];
    var hs := w.headers[s];
    match CopyCell(hs.mgr, w.cells[s], w.heap, fails)
    case Err(e) => Err(e)
    case Ok((c, h1)) =>
      var (cell, h2) := Supplant(hd.mgr, w.cells[d], hs.mgr, c, w.heap, h1);
      AdmissibleRetyped(hs, hd.kind);
      PutValid(w, d, hs.(kind := hd.kind), cell, h2);
      Ok(Put(w, d, hs.(kind := hd.kind), cell, h2))
  }

  /** `move_only_function{std::move(s)}.swap(d)` for a `copyable_function`
      s, and the temporary's destruction: the conversion moves s's target
      into the temporary, which then replaces d's; s is left empty, and only
      d's old target is freed. The end state is that of destroying d's
      target first and then handing s's over. */
  function ConvertThenSwapIn(w: FnWorld, d: Id, s: Id): (w': FnWorld)
    requires Valid(w) && d in w.headers && s in w.headers
    requires w.headers[d].kind == MoveOnlyFunction && w.headers[s].kind == CopyableFunction
    requires w.headers[d].form == w.headers[s].form
    ensures Valid(w') && w'.headers.Keys == w.headers.Keys
    ensures w'.headers[d] == w.headers[s].(kind := MoveOnlyFunction)
    ensures Payload(w', d) == Payload(w, s) && !OperatorBool(w', s)
    ensures w'.heap.objs == w.heap.objs - AddrOf(w.cells[d])
    ensures Untouched(w, w', {d, s})
  {
    var w1 := Clear(w, d);
    assert Kept(w, w1, s);
    var w' := HandOver(w1, d, s, MoveOnlyFunction);
    UntouchedChain(w, w1, w', {d}, {d, s});
    assert {d} + {d, s} == {d, s};
    w'
  }

  /** `d = s` for a wrapper s of d's signature, of either class template, as
      the expression of category `cat`, with the copy assignment's staged
      branch relocating through `destructive_move` (as written that operator
      is ill-formed, `Manager.CopyAssignIsIllFormed`). Whatever operator is
      selected, a successful assignment leaves d with s's vtable and an
      equal target; a move empties s and frees nothing but d's old target, a
      copy leaves s alone and may throw, and then the world is as it was. */
  function AssignWrapper(w: FnWorld, d: Id, s: Id, cat: Category, fails: bool): (r: Result<FnWorld, AssignError>)
    requires Valid(w) && d in w.headers && s in w.headers
    requires w.headers[d].form == w.headers[s].form
    ensures r == Err(Unassignable) <==> SelectAssignment(w.headers[d].kind, w.headers[s].kind, cat) == NoAssignment
    ensures r == Err(AssignmentThrew) <==>
              && MakesCopy(SelectAssignment(w.headers[d].kind, w.headers[s].kind, cat), d == s)
              && fails && CopyMayThrow(w.headers[s].mgr)
    ensures r.Ok? ==>
              && Valid(r.value) && r.value.headers.Keys == w.headers.Keys
              && r.value.headers[d] == w.headers[d].(mgr := w.headers[s].mgr)
              && Payload(r.value, d) == Payload(w, s)
    ensures r.Ok? && Moves(SelectAssignment(w.headers[d].kind, w.headers[s].kind, cat)) ==>
              && Untouched(w, r.value, {d, s})
              && (d != s ==> !OperatorBool(r.value, s) && r.value.heap.objs == w.heap.objs - AddrOf(w.cells[d]))
    ensures r.Ok? && !Moves(SelectAssignment(w.headers[d].kind, w.headers[s].kind, cat)) ==>
              && Untouched(w, r.value, {d})
              && (d != s ==> r.value.heap.objs.Keys == (w.heap.objs.Keys - AddrOf(w.cells[d])) + AddrOf(r.value.cells[d]))
  {
    var hd := w.headers[d];
    var hs := w.headers[s];
    assert hd.(mgr := hs.mgr) == hs <==> hd.kind == hs.kind;
    match SelectAssignment(hd.kind, hs.kind, cat)
    case NoAssignment => Err(Unassignable)
    case MoveAssignment => Ok(MoveAssign(w, d, s))
    case CopyAssignment =>
      (match CopyAssign(w, d, s, fails)
       case Err(_) => Err(AssignmentThrew)
       case Ok(w') => Ok(w'))
    case CopyThenSwap | ConvertCopyThenSwap =>
      (match CopyThenSwapIn(w, d, s, fails)
       case Err(_) => Err(AssignmentThrew)
       case Ok(w') => Ok(w'))
    case ConvertThenSwap => Ok(ConvertThenSwapIn(w, d, s))
  }

  /** A call `wrapper(args...)` made on an object expression e: e must bind
      the wrapper's own call operator, and the wrapper must not be empty.
      The invoker calls the target through `inv_quals`; the result is the
      index of the target's call operator that runs, and the target. That
      operator is the best viable one, is not deleted, and is noexcept when
      the signature is. */
  function Call(w: FnWorld, i: Id, e: ObjExpr): (r: (nat, Obj))
    requires Valid(w) && i in w.headers
    requires Viable(Traits.CallOperatorOf(w.headers[i].form), e)
    requires OperatorBool(w, i)
    ensures Payload(w, i) == Some(r.1)
    ensures IsBest(r.1.ty.calls, r.0, ExprOf(Traits.CallQuals(Traits.SigOf(w.headers[i].form))))
    ensures !r.1.ty.calls[r.0].deleted
    ensures Traits.SigOf(w.headers[i].form).isNoexcept ==> r.1.ty.calls[r.0].isNoexcept
  {
    assert WrapperOk(w, i);
    var hd := w.headers[i];
    var t := hd.mgr.ty;
    var category := Traits.InvokerCategory(Traits.TraitsOf(hd.form).invoker);
    Traits.InvokerMatchesCallQuals(hd.form);
    Traits.TraitsFollowQualifiers(hd.form);
    var k := Resolve(t.calls, category).value;
    (k, Housed(t, w.cells[i], w.heap))
  }
}
