/** The older move-only wrapper `ptl::function<S>` (inc/function.hpp) as
    operations on a world of wrapper objects sharing one heap.

    Its vtable has one `manage(from, to, destructive)` entry. A move that is
    not destructive leaves an inline target alive in its moved-from state,
    so, unlike `move_only_function`, a wrapper whose target is stored inline
    stays non-empty after it has been moved from. */
module PtlFunction {
  import opened Outcomes
  import opened Qualifiers
  import Traits
  import PtlTraits
  import opened Storage
  import Arguments

  /** The vtable a wrapper points to: the empty one of `init_empty`, or the
      one `init<T>` builds for a target type T. */
  datatype PtlManager = PtlEmpty | PtlOwning(ty: PayloadType)

  /** The cell holds what the vtable expects: nothing for the empty vtable, a
      T where `sbo` puts it otherwise. */
  predicate PtlHolds(m: PtlManager, c: Cell, h: Heap) {
    match m
    case PtlEmpty => c == Vacant
    case PtlOwning(t) => Houses(t, c, h)
  }

  /** What a call of `manage` leaves behind: the `from` cell, the `to` cell
      (`Vacant` when `to` was null), the heap, and the returned flag. */
  datatype Managed = Managed(from: Cell, to: Cell, heap: Heap, answer: bool)

  /** `manage(from, to, destructive)`, with `to` non-null exactly when
      `hasTo`. With a target the content of `from` moves over bit for bit
      (an inline T is move-constructed with its state, a heap pointer is
      transferred, the empty vtable nulls the pointer); an inline T stays
      alive, moved-from, unless the move is destructive. Without a target,
      the T is destroyed and freed. The flag is true exactly for a heap
      target: the caller must then reset the source to empty. */
  function PtlManage(m: PtlManager, from: Cell, hasTo: bool, destructive: bool, h: Heap): (r: Managed)
    requires PtlHolds(m, from, h)
    ensures r.answer <==> m.PtlOwning? && !Sbo(m.ty)
    ensures hasTo ==> r.to == from && r.heap == h
    ensures !hasTo ==> r.to == Vacant && r.heap.objs == h.objs - AddrOf(from) && r.heap.next == h.next
    ensures r.from == if hasTo && !destructive && m.PtlOwning? && Sbo(m.ty) then Inline(Obj(m.ty, MovedFrom)) else Vacant
  {
    match m
    case PtlEmpty => Managed(from, Vacant, h, false)
    case PtlOwning(t) =>
      if Sbo(t) then
        var moved := if hasTo then Inline(from.obj) else Vacant;
        var left := if hasTo && !destructive then Inline(Obj(t, MovedFrom)) else Vacant;
        Managed(left, moved, h, false)
      else if hasTo then Managed(Vacant, from, h, true)
      else Managed(Vacant, Vacant, Free(h, from.addr), true)
  }

  /** A wrapper object's signature form and its `vptr`. */
  datatype PtlHeader = PtlHeader(form: Traits.Form, mgr: PtlManager)

  type PtlWorld = World<PtlHeader>

  /** What construction guarantees about a non-empty wrapper: the signature
      accepts the target type (`is_callable_from`). */
  predicate PtlAdmissible(hd: PtlHeader) {
    hd.mgr.PtlOwning? ==> PtlTraits.IsCallableFrom(PtlTraits.PtlTraitsOf(hd.form), hd.mgr.ty.calls)
  }

  /** The class invariant of wrapper i. */
  predicate WrapperOk(w: PtlWorld, i: Id) {
    && i in w.headers && i in w.cells
    && PtlHolds(w.headers[i].mgr, w.cells[i], w.heap)
    && PtlAdmissible(w.headers[i])
  }

  /** The class invariant of every wrapper, and a leak-free heap. */
  predicate Valid(w: PtlWorld) {
    && w.headers.Keys == w.cells.Keys
    && HeapOk(w.cells, w.heap)
    && forall i {:trigger WrapperOk(w, i)} | i in w.headers :: WrapperOk(w, i)
  }

  /** The target object a wrapper holds, if any; an inline target may be in
      its moved-from state. */
  function Payload(w: PtlWorld, i: Id): (p: Option<Obj>)
    requires Valid(w) && i in w.headers
    ensures p.Some? <==> w.headers[i].mgr.PtlOwning?
    ensures p.Some? ==> p.value.ty == w.headers[i].mgr.ty
  {
    assert WrapperOk(w, i);
    match w.headers[i].mgr
    case PtlEmpty => None
    case PtlOwning(t) => Some(Housed(t, w.cells[i], w.heap))
  }

  /** Every wrapper outside ids is still alive with the same header, cell and
      target object. */
  predicate Untouched(w: PtlWorld, w': PtlWorld, ids: set<Id>)
    requires Valid(w) && Valid(w')
  {
    forall k {:trigger Kept(w, w', k)} | k in w.headers && k !in ids :: Kept(w, w', k)
  }

  /** Wrapper k is alive in w' with the header, cell and target it had in w. */
  predicate Kept(w: PtlWorld, w': PtlWorld, k: Id)
    requires Valid(w) && Valid(w') && k in w.headers
  {
    && k in w'.headers
    && w'.headers[k] == w.headers[k]
    && w'.cells[k] == w.cells[k]
    && Payload(w', k) == Payload(w, k)
  }

  /** An update that changes only the wrappers in ids, keeps the heap
      leak-free and never rewrites a heap object in place keeps every other
      wrapper valid and unchanged. */
  lemma Reframe(w: PtlWorld, w': PtlWorld, ids: set<Id>)
    requires Valid(w)
    requires w'.headers.Keys == w'.cells.Keys
    requires HeapOk(w'.cells, w'.heap)
    requires Stable(w.heap, w'.heap)
    requires forall k | k in w.headers && k !in ids :: k in w'.headers
    requires forall k | k in w'.headers && k !in ids ::
               k in w.headers && w'.headers[k] == w.headers[k] && w'.cells[k] == w.cells[k]
    requires forall k | k in w'.headers && k in ids ::
               PtlHolds(w'.headers[k].mgr, w'.cells[k], w'.heap) && PtlAdmissible(w'.headers[k])
    ensures Valid(w')
    ensures Untouched(w, w', ids)
  {
    forall k | k in w'.headers
      ensures WrapperOk(w', k)
    {
      if k !in ids {
        assert WrapperOk(w, k);
        if w.cells[k].Boxed? {
          assert w.cells[k].addr in Owned(w'.cells);
        }
        var m := w.headers[k].mgr;
        if m.PtlOwning? {
          HousesFrame(m.ty, w.cells[k], w.heap, w'.heap);
        }
      }
    }
    forall k | k in w.headers && k !in ids
      ensures Kept(w, w', k)
    {
      assert WrapperOk(w, k);
      if w.cells[k].Boxed? {
        assert w.cells[k].addr in Owned(w'.cells);
      }
      var m := w.headers[k].mgr;
      if m.PtlOwning? {
        HousesFrame(m.ty, w.cells[k], w.heap, w'.heap);
      }
    }
  }

  /** The world with wrapper i's header and cell replaced and the heap
      replaced by h. */
  function Put(w: PtlWorld, i: Id, hd: PtlHeader, c: Cell, h: Heap): PtlWorld {
    World(w.headers[i := hd], w.cells[i := c], h)
  }

  /** Replacing one wrapper by a valid one whose cell owns nothing or a fresh
      address, while the heap loses exactly the old cell's object, keeps the
      world valid and every other wrapper as it was. */
  lemma PutValid(w: PtlWorld, i: Id, hd: PtlHeader, c: Cell, h: Heap)
    requires Valid(w)
    requires c.Boxed? ==> c.addr !in w.heap.objs
    requires h.objs.Keys == (w.heap.objs.Keys - AddrAt(w.cells, i)) + AddrOf(c)
    requires Bounded(h) && Stable(w.heap, h)
    requires PtlHolds(hd.mgr, c, h) && PtlAdmissible(hd)
    ensures Valid(Put(w, i, hd, c, h))
    ensures Put(w, i, hd, c, h).headers.Keys == w.headers.Keys + {i}
    ensures i in w.headers ==> Put(w, i, hd, c, h).headers.Keys == w.headers.Keys
    ensures Payload(Put(w, i, hd, c, h), i) == if hd.mgr.PtlOwning? then Some(Housed(hd.mgr.ty, c, h)) else None
    ensures Untouched(w, Put(w, i, hd, c, h), {i})
  {
    var w' := Put(w, i, hd, c, h);
    assert w'.headers.Keys == w.headers.Keys + {i} == w'.cells.Keys;
    HeapOkPut(w.cells, w.heap, i, c, h);
    Reframe(w, w', {i});
    assert WrapperOk(w', i);
  }

  /** Two updates in a row leave untouched what neither of them touched. */
  lemma UntouchedChain(w: PtlWorld, w1: PtlWorld, w2: PtlWorld, ids1: set<Id>, ids2: set<Id>)
    requires Valid(w) && Valid(w1) && Valid(w2)
    requires Untouched(w, w1, ids1) && Untouched(w1, w2, ids2)
    ensures Untouched(w, w2, ids1 + ids2)
  {
    forall k | k in w.headers && k !in ids1 + ids2
      ensures Kept(w, w2, k)
    {
      assert Kept(w, w1, k);
      assert Kept(w1, w2, k);
    }
  }

  /** `explicit operator bool`: `vptr->dispatch` is non-null, which holds for
      every vtable but the empty one. */
  function OperatorBool(w: PtlWorld, i: Id): (b: bool)
    requires Valid(w) && i in w.headers
    ensures b <==> Payload(w, i).Some?
  {
    w.headers[i].mgr.PtlOwning?
  }

  /** The default constructor and the `nullptr_t` constructor. */
  function DefaultConstruct(w: PtlWorld, i: Id, form: Traits.Form): (w': PtlWorld)
    requires Valid(w) && i !in w.headers
    ensures Valid(w') && w'.headers.Keys == w.headers.Keys + {i}
    ensures w'.headers[i].form == form && Payload(w', i).None?
    ensures w'.heap == w.heap
    ensures Untouched(w, w', {i})
  {
    PutValid(w, i, PtlHeader(form, PtlEmpty), Vacant, w.heap);
    Put(w, i, PtlHeader(form, PtlEmpty), Vacant, w.heap)
  }

  /** Why a constructor does not produce a wrapper: its constraint excludes
      the argument (the wrapper's own type) or the target is not callable as
      the signature demands, both at compile time; or, at run time, the
      target's constructor or its allocation throws. */
  datatype PtlCtorError = NotThisConstructor | NotCallable | ConstructorThrew

  /** The constraint of the converting constructor `function(F&&)`: F is not
      the wrapper's own type and `is_callable_from<decay_t<F>>` holds. */
  predicate Constructible(form: Traits.Form, arg: Arguments.Arg) {
    && !(arg.shape.WrapperObject? && arg.shape.template == Arguments.PtlFunction && arg.shape.form == form)
    && PtlTraits.IsCallableFrom(PtlTraits.PtlTraitsOf(form), arg.ty.calls)
  }

  /** The body of `function(F&&)`, with `isNull` the outcome of its null
      test: a null argument gives the empty vtable, anything else is
      emplaced by `init<VT>`, which throws when `fails`. */
  function BuildCell(form: Traits.Form, arg: Arguments.Arg, isNull: bool, h: Heap, fails: bool)
    : (r: Result<(PtlManager, Cell, Heap), PtlCtorError>)
    requires Bounded(h)
    ensures r.Ok? <==> Constructible(form, arg) && (isNull || !fails)
    ensures r == Err(ConstructorThrew) <==> Constructible(form, arg) && !isNull && fails
    ensures r.Ok? ==>
              && PtlHolds(r.value.0, r.value.1, r.value.2)
              && PtlAdmissible(PtlHeader(form, r.value.0))
              && (r.value.1.Boxed? ==> r.value.1.addr !in h.objs)
              && r.value.2.objs.Keys == h.objs.Keys + AddrOf(r.value.1)
              && Stable(h, r.value.2) && Bounded(r.value.2)
              && (r.value.0.PtlEmpty? <==> isNull)
              && (r.value.0.PtlOwning? ==>
                    r.value.0.ty == arg.ty && Housed(arg.ty, r.value.1, r.value.2) == Obj(arg.ty, Value(arg.v)))
  {
    if arg.shape.WrapperObject? && arg.shape.template == Arguments.PtlFunction && arg.shape.form == form then
      Err(NotThisConstructor)
    else if !PtlTraits.IsCallableFrom(PtlTraits.PtlTraitsOf(form), arg.ty.calls) then Err(NotCallable)
    else if isNull then Ok((PtlEmpty, Vacant, h))
    else Init(arg.ty, arg.v, h, fails)
  }

  /** The new vtable and cell of `function(F&&)` with the null test it is
      meant to have: a null argument (a null function or member pointer,
      however it is passed, or an empty `function` of any signature) gives
      the empty vtable. */
  function ConstructCell(form: Traits.Form, arg: Arguments.Arg, h: Heap, fails: bool)
    : (r: Result<(PtlManager, Cell, Heap), PtlCtorError>)
    requires Bounded(h)
    ensures r.Ok? <==> Constructible(form, arg) && (Arguments.NullArgument(Arguments.PtlFunction, arg.shape) || !fails)
    ensures r.Ok? ==> (r.value.0.PtlEmpty? <==> Arguments.NullArgument(Arguments.PtlFunction, arg.shape))
  {
    BuildCell(form, arg, Arguments.NullArgument(Arguments.PtlFunction, arg.shape), h, fails)
  }

  /** The new vtable and cell of `function(F&&)` as written: the null test
      is reached only for the arguments `Arguments.NullTestAsWritten`
      describes, the same undecayed test as in `move_only_function`. */
  function ConstructCellAsWritten(form: Traits.Form, arg: Arguments.Arg, h: Heap, fails: bool)
    : (r: Result<(PtlManager, Cell, Heap), PtlCtorError>)
    requires Bounded(h)
    ensures r.Ok? <==> Constructible(form, arg) && (Arguments.NullTestAsWritten(Arguments.PtlFunction, arg.shape) || !fails)
    ensures r.Ok? ==> (r.value.0.PtlEmpty? <==> Arguments.NullTestAsWritten(Arguments.PtlFunction, arg.shape))
  {
    BuildCell(form, arg, Arguments.NullTestAsWritten(Arguments.PtlFunction, arg.shape), h, fails)
  }

  /** A null function pointer passed as an lvalue: as written, the new
      `function` holds the null pointer under a non-empty vtable, while the
      intended constructor leaves it empty. */
  lemma LvalueNullPointerMakesNonEmptyWrapper(form: Traits.Form, arg: Arguments.Arg, h: Heap)
    requires Bounded(h) && Constructible(form, arg)
    requires arg.shape == Arguments.FunctionPointer(true, true)
    ensures ConstructCellAsWritten(form, arg, h, false).value.0.PtlOwning?
    ensures ConstructCell(form, arg, h, false).value.0.PtlEmpty?
  {
    Arguments.LvalueNullPointerSlipsThrough(Arguments.PtlFunction);
  }

  /** `init<T>(args...)`: the T is built in the inline buffer when `sbo`
      allows, on the heap otherwise. T's constructor or `new T{...}` may
      throw (`fails`), leaving nothing behind. */
  function Init(t: PayloadType, v: nat, h: Heap, fails: bool): (r: Result<(PtlManager, Cell, Heap), PtlCtorError>)
    requires Bounded(h)
    ensures r.Err? <==> fails
    ensures r.Err? ==> r.error == ConstructorThrew
    ensures r.Ok? ==> r.value.0 == PtlOwning(t) && PtlHolds(r.value.0, r.value.1, r.value.2)
    ensures r.Ok? ==> (r.value.1.Boxed? <==> !Sbo(t))
    ensures r.Ok? ==> (r.value.1.Boxed? ==> r.value.1.addr !in h.objs)
    ensures r.Ok? ==> r.value.2.objs.Keys == h.objs.Keys + AddrOf(r.value.1)
    ensures r.Ok? ==> Stable(h, r.value.2) && Bounded(r.value.2)
    ensures r.Ok? ==> Housed(t, r.value.1, r.value.2) == Obj(t, Value(v))
  {
    if fails then Err(ConstructorThrew)
    else if Sbo(t) then Ok((PtlOwning(t), Inline(Obj(t, Value(v))), h))
    else
      var (h', a) := Alloc(h, Obj(t, Value(v)));
      Ok((PtlOwning(t), Boxed(a), h'))
  }

  /** The converting constructor `function(F&&)`, with the null test it is
      meant to have. When building the target throws, no wrapper comes into
      being. */
  function Construct(w: PtlWorld, i: Id, form: Traits.Form, arg: Arguments.Arg, fails: bool): (r: Result<PtlWorld, PtlCtorError>)
    requires Valid(w) && i !in w.headers
    ensures r.Ok? <==> Constructible(form, arg) && (Arguments.NullArgument(Arguments.PtlFunction, arg.shape) || !fails)
    ensures r == Err(ConstructorThrew) <==>
              Constructible(form, arg) && !Arguments.NullArgument(Arguments.PtlFunction, arg.shape) && fails
    ensures r.Ok? ==>
              && Valid(r.value) && r.value.headers.Keys == w.headers.Keys + {i}
              && r.value.headers[i].form == form
              && (Payload(r.value, i).None? <==> Arguments.NullArgument(Arguments.PtlFunction, arg.shape))
              && (Payload(r.value, i).Some? ==> Payload(r.value, i).value == Obj(arg.ty, Value(arg.v)))
              && Untouched(w, r.value, {i})
  {
    match BuildCell(form, arg, Arguments.NullArgument(Arguments.PtlFunction, arg.shape), w.heap, fails)
    case Err(e) => Err(e)
    case Ok((m, c, h)) =>
      PutValid(w, i, PtlHeader(form, m), c, h);
      Ok(Put(w, i, PtlHeader(form, m), c, h))
  }

  /** The `in_place_type_t<T>` constructor: T is built from the arguments
      with no null check; the constraint is callability. Building T may
      throw (`fails`), and then nothing is built. */
  function InPlaceConstruct(w: PtlWorld, i: Id, form: Traits.Form, t: PayloadType, v: nat, fails: bool)
    : (r: Result<PtlWorld, PtlCtorError>)
    requires Valid(w) && i !in w.headers
    ensures r.Ok? <==> PtlTraits.IsCallableFrom(PtlTraits.PtlTraitsOf(form), t.calls) && !fails
    ensures r == Err(ConstructorThrew) <==> PtlTraits.IsCallableFrom(PtlTraits.PtlTraitsOf(form), t.calls) && fails
    ensures r.Ok? ==>
              && Valid(r.value) && r.value.headers.Keys == w.headers.Keys + {i}
              && r.value.headers[i].form == form
              && Payload(r.value, i) == Some(Obj(t, Value(v)))
              && Untouched(w, r.value, {i})
  {
    if !PtlTraits.IsCallableFrom(PtlTraits.PtlTraitsOf(form), t.calls) then Err(NotCallable)
    else
      match Init(t, v, w.heap, fails)
      case Err(e) => Err(e)
      case Ok((m, c, h)) =>
        PutValid(w, i, PtlHeader(form, m), c, h);
        Ok(Put(w, i, PtlHeader(form, m), c, h))
  }

  /** `vptr->move(&other.storage, &storage)` followed, when it returns true,
      by `other.init_empty()`: d receives s's vtable and content, and s keeps
      its vtable with what the move left behind, or becomes empty. d is new
      or already empty. */
  function MoveInto(w: PtlWorld, d: Id, s: Id): (w': PtlWorld)
    requires Valid(w) && s in w.headers && d != s
    requires d in w.headers ==> w.headers[d].mgr.PtlEmpty? && w.headers[d].form == w.headers[s].form
    ensures Valid(w') && w'.headers.Keys == w.headers.Keys + {d}
    ensures w'.headers[d] == w.headers[s]
    ensures Payload(w', d) == Payload(w, s)
    ensures OperatorBool(w', s) <==> OperatorBool(w, s) && Sbo(w.headers[s].mgr.ty)
    ensures OperatorBool(w', s) ==> Payload(w', s) == Some(Obj(w.headers[s].mgr.ty, MovedFrom))
    ensures w'.heap == w.heap
    ensures Untouched(w, w', {d, s})
  {
    assert WrapperOk(w, s);
    var hs := w.headers[s];
    var r := PtlManage(hs.mgr, w.cells[s], true, false, w.heap);
    assert r.to == w.cells[s];
    if r.answer then
      HandedOffValid(w, d, s);
      World(w.headers[d := w.headers[s]][s := w.headers[s].(mgr := PtlEmpty)], w.cells[d := w.cells[s]][s := Vacant], w.heap)
    else
      LeftBehindValid(w, d, s, r.from);
      World(w.headers[d := w.headers[s]][s := w.headers[s]], w.cells[d := w.cells[s]][s := r.from], w.heap)
  }

  /** The heap case of `MoveInto`: the pointer moves to d and s is reset to
      empty. */
  lemma HandedOffValid(w: PtlWorld, d: Id, s: Id)
    requires Valid(w) && s in w.headers && d != s
    requires d in w.headers ==> w.headers[d].mgr.PtlEmpty?
    ensures var w' := World(w.headers[d := w.headers[s]][s := w.headers[s].(mgr := PtlEmpty)],
                            w.cells[d := w.cells[s]][s := Vacant], w.heap);
            && Valid(w') && w'.headers.Keys == w.headers.Keys + {d}
            && Payload(w', d) == Payload(w, s) && Payload(w', s).None?
            && Untouched(w, w', {d, s})
  {
    var w' := World(w.headers[d := w.headers[s]][s := w.headers[s].(mgr := PtlEmpty)],
                    w.cells[d := w.cells[s]][s := Vacant], w.heap);
    assert WrapperOk(w, s);
    if d in w.headers {
      assert WrapperOk(w, d);
    }
    assert w'.headers.Keys == w.headers.Keys + {d} == w'.cells.Keys;
    HeapOkHandOff(w.cells, w.heap, d, s);
    Reframe(w, w', {d, s});
  }

  /** The inline and empty cases of `MoveInto`: d receives a bitwise copy of
      s's cell, and s keeps its vtable with what the move left in its cell. */
  lemma LeftBehindValid(w: PtlWorld, d: Id, s: Id, left: Cell)
    requires Valid(w) && s in w.headers && d != s
    requires d in w.headers ==> w.headers[d].mgr.PtlEmpty?
    requires !w.cells[s].Boxed? && !left.Boxed?
    requires PtlHolds(w.headers[s].mgr, left, w.heap)
    ensures var w' := World(w.headers[d := w.headers[s]][s := w.headers[s]],
                            w.cells[d := w.cells[s]][s := left], w.heap);
            && Valid(w') && w'.headers.Keys == w.headers.Keys + {d}
            && Payload(w', d) == Payload(w, s)
            && Payload(w', s) == (if w.headers[s].mgr.PtlOwning? then Some(Housed(w.headers[s].mgr.ty, left, w.heap)) else None)
            && Untouched(w, w', {d, s})
  {
    var hs := w.headers[s];
    assert WrapperOk(w, s);
    if d in w.headers {
      assert WrapperOk(w, d);
    }
    var w1 := Put(w, d, hs, w.cells[s], w.heap);
    PutValid(w, d, hs, w.cells[s], w.heap);
    assert Kept(w, w1, s);
    var w2 := Put(w1, s, hs, left, w.heap);
    PutValid(w1, s, hs, left, w.heap);
    assert Kept(w1, w2, d);
    UntouchedChain(w, w1, w2, {d}, {s});
    assert {d} + {s} == {d, s};
  }

  /** The move constructor `function(function&&)`. */
  function MoveConstruct(w: PtlWorld, d: Id, s: Id): (w': PtlWorld)
    requires Valid(w) && s in w.headers && d !in w.headers
    ensures Valid(w') && w'.headers.Keys == w.headers.Keys + {d}
    ensures w'.headers[d] == w.headers[s]
    ensures Payload(w', d) == Payload(w, s)
    ensures OperatorBool(w', s) <==> OperatorBool(w, s) && Sbo(w.headers[s].mgr.ty)
    ensures OperatorBool(w', s) ==> Payload(w', s) == Some(Obj(w.headers[s].mgr.ty, MovedFrom))
    ensures w'.heap == w.heap
    ensures Untouched(w, w', {d, s})
  {
    MoveInto(w, d, s)
  }

  /** The destructor's effect on a wrapper that stays in the world
      (`vptr->dtor(&storage)`): its target is destroyed and freed, and it is
      treated as empty until a new vtable is installed. */
  function Release(w: PtlWorld, i: Id): (w': PtlWorld)
    requires Valid(w) && i in w.headers
    ensures Valid(w') && w'.headers.Keys == w.headers.Keys
    ensures w'.headers[i] == w.headers[i].(mgr := PtlEmpty)
    ensures w'.heap.objs == w.heap.objs - AddrOf(w.cells[i])
    ensures Untouched(w, w', {i})
  {
    assert WrapperOk(w, i);
    var hd := w.headers[i];
    var r := PtlManage(hd.mgr, w.cells[i], false, false, w.heap);
    PutValid(w, i, hd.(mgr := PtlEmpty), Vacant, r.heap);
    Put(w, i, hd.(mgr := PtlEmpty), Vacant, r.heap)
  }

  /** Move assignment: self-assignment changes nothing; otherwise the old
      target is destroyed, then the source's vtable and content move over
      as in the move constructor. */
  function MoveAssign(w: PtlWorld, d: Id, s: Id): (w': PtlWorld)
    requires Valid(w) && d in w.headers && s in w.headers
    requires w.headers[d].form == w.headers[s].form
    ensures Valid(w') && w'.headers.Keys == w.headers.Keys
    ensures d == s ==> w' == w
    ensures d != s ==>
              && w'.headers[d] == w.headers[s]
              && Payload(w', d) == Payload(w, s)
              && (OperatorBool(w', s) <==> OperatorBool(w, s) && Sbo(w.headers[s].mgr.ty))
              && w'.heap.objs == w.heap.objs - AddrOf(w.cells[d])
              && Untouched(w, w', {d, s})
  {
    if d == s then w
    else
      var w1 := Release(w, d);
      var w' := MoveInto(w1, d, s);
      UntouchedChain(w, w1, w', {d}, {d, s});
      assert {d} + {d, s} == {d, s};
      assert Kept(w, w1, s);
      w'
  }

  /** `swap`: three destructive moves through a temporary, then the vtables
      are exchanged; a destructive move carries a target over unchanged, so
      the two wrappers trade headers and cells exactly. */
  function Swap(w: PtlWorld, a: Id, b: Id): (w': PtlWorld)
    requires Valid(w) && a in w.headers && b in w.headers
    requires w.headers[a].form == w.headers[b].form
    ensures Valid(w') && w'.headers.Keys == w.headers.Keys
    ensures w'.headers == w.headers[a := w.headers[b]][b := w.headers[a]]
    ensures w'.cells == w.cells[a := w.cells[b]][b := w.cells[a]]
    ensures Payload(w', a) == Payload(w, b) && Payload(w', b) == Payload(w, a)
    ensures w'.heap == w.heap
    ensures Untouched(w, w', {a, b})
  {
    if a == b then
      assert w.headers[a := w.headers[b]][b := w.headers[a]] == w.headers;
      assert w.cells[a := w.cells[b]][b := w.cells[a]] == w.cells;
      w
    else
      assert WrapperOk(w, a) && WrapperOk(w, b);
      var ha := w.headers[a];
      var hb := w.headers[b];
      var tmp := PtlManage(ha.mgr, w.cells[a], true, true, w.heap);
      var intoA := PtlManage(hb.mgr, w.cells[b], true, true, tmp.heap);
      var intoB := PtlManage(ha.mgr, tmp.to, true, true, intoA.heap);
      var w' := World(w.headers[a := hb][b := ha], w.cells[a := intoA.to][b := intoB.to], intoB.heap);
      assert w'.headers.Keys == w.headers.Keys == w'.cells.Keys;
      HeapOkExchange(w.cells, w.heap, a, b);
      Reframe(w, w', {a, b});
      w'
  }

  /** Swapping twice restores the world. */
  lemma SwapTwiceIsIdentity(w: PtlWorld, a: Id, b: Id)
    requires Valid(w) && a in w.headers && b in w.headers
    requires w.headers[a].form == w.headers[b].form
    ensures Swap(Swap(w, a, b), a, b) == w
  {
    ExchangeTwice(w.headers, a, b);
    ExchangeTwice(w.cells, a, b);
  }


  /** `operator=(nullptr_t)`: a non-empty wrapper swaps with a temporary
      empty one, whose destruction then destroys the old target. */
  function NullAssign(w: PtlWorld, i: Id): (w': PtlWorld)
    requires Valid(w) && i in w.headers
    ensures Valid(w') && w'.headers.Keys == w.headers.Keys
    ensures w'.headers[i] == w.headers[i].(mgr := PtlEmpty) && !OperatorBool(w', i)
    ensures w'.heap.objs == w.heap.objs - AddrOf(w.cells[i])
    ensures !OperatorBool(w, i) ==> w' == w
    ensures Untouched(w, w', {i})
  {
    assert WrapperOk(w, i);
    if !OperatorBool(w, i) then w
    else Release(w, i)
  }

  /** `operator=(F&&)`: `function{f}.swap(*this)`, then the temporary, now
      holding the old target, is destroyed. The end state is that of
      releasing the old target first and then building the new one, since
      no address is ever reused. When building the temporary throws, the
      wrapper is left as it was. A `function` of the wrapper's own type is
      `NotThisConstructor`: as an rvalue it selects the move assignment, as
      an lvalue the deleted copy constructor. */
  function Assign(w: PtlWorld, i: Id, arg: Arguments.Arg, fails: bool): (r: Result<PtlWorld, PtlCtorError>)
    requires Valid(w) && i in w.headers
    ensures r.Ok? <==>
              && Constructible(w.headers[i].form, arg)
              && (Arguments.NullArgument(Arguments.PtlFunction, arg.shape) || !fails)
    ensures r == Err(ConstructorThrew) <==>
              && Constructible(w.headers[i].form, arg)
              && !Arguments.NullArgument(Arguments.PtlFunction, arg.shape) && fails
    ensures r.Ok? ==>
              && Valid(r.value) && r.value.headers.Keys == w.headers.Keys
              && r.value.headers[i].form == w.headers[i].form
              && (Payload(r.value, i).None? <==> Arguments.NullArgument(Arguments.PtlFunction, arg.shape))
              && (Payload(r.value, i).Some? ==> Payload(r.value, i).value == Obj(arg.ty, Value(arg.v)))
              && r.value.heap.objs.Keys == (w.heap.objs.Keys - AddrOf(w.cells[i])) + AddrOf(r.value.cells[i])
              && Untouched(w, r.value, {i})
  {
    var isNull := Arguments.NullArgument(Arguments.PtlFunction, arg.shape);
    if Constructible(w.headers[i].form, arg) && !isNull && fails then Err(ConstructorThrew)
    else
      var w1 := Release(w, i);
      match BuildCell(w.headers[i].form, arg, isNull, w1.heap, fails)
      case Err(e) => Err(e)
      case Ok((m, c, h)) =>
        PutValid(w1, i, PtlHeader(w.headers[i].form, m), c, h);
        var w2 := Put(w1, i, PtlHeader(w.headers[i].form, m), c, h);
        UntouchedChain(w, w1, w2, {i}, {i});
        assert {i} + {i} == {i};
        Ok(w2)
  }

  /** The destructor: the target is destroyed and freed. */
  function DestroyWrapper(w: PtlWorld, i: Id): (w': PtlWorld)
    requires Valid(w) && i in w.headers
    ensures Valid(w') && w'.headers.Keys == w.headers.Keys - {i}
    ensures w'.heap.objs == w.heap.objs - AddrOf(w.cells[i])
    ensures Untouched(w, w', {i})
  {
    assert WrapperOk(w, i);
    var r := PtlManage(w.headers[i].mgr, w.cells[i], false, false, w.heap);
    var w' := World(w.headers - {i}, w.cells - {i}, r.heap);
    HeapOkRemove(w.cells, w.heap, i, r.heap);
    Reframe(w, w', {i});
    w'
  }

  /** A call `f(args...)` on an object expression e: e must bind the one
      enabled call operator, and the wrapper must not be empty (`dispatch`
      is null otherwise). The target is called as `add_inv_quals<T>`; the
      result is the index of its call operator that runs, and the target.
      That operator is the best viable one, not deleted, and noexcept when
      the signature is. */
  function Call(w: PtlWorld, i: Id, e: ObjExpr): (r: (nat, Obj))
    requires Valid(w) && i in w.headers
    requires Viable(Traits.CallOperatorOf(w.headers[i].form), e)
    requires OperatorBool(w, i)
    ensures Payload(w, i) == Some(r.1)
    ensures IsBest(r.1.ty.calls, r.0, ExprOf(PtlTraits.AddInvQuals(PtlTraits.PtlTraitsOf(w.headers[i].form))))
    ensures !r.1.ty.calls[r.0].deleted
    ensures PtlTraits.PtlTraitsOf(w.headers[i].form).isNoexcept ==> r.1.ty.calls[r.0].isNoexcept
  {
    assert WrapperOk(w, i);
    var hd := w.headers[i];
    var t := hd.mgr.ty;
    var k := Resolve(t.calls, ExprOf(PtlTraits.AddInvQuals(PtlTraits.PtlTraitsOf(hd.form)))).value;
    (k, Housed(t, w.cells[i], w.heap))
  }
}
