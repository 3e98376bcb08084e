/** The type-erased manager of `move_only_function` / `copyable_function`
    (inc/copyable_function.hpp): `owning_manage<Copyable, T>` and `nop_manage`
    behind the four `mode`s, `construct`, and the vtable's thin wrappers
    `dtor`, `destructive_move`, `copy` and `noexcept_copyable`. */
module Manager {
  import opened Outcomes
  import opened Storage

  /** `internal_function::mode`. */
  datatype Mode = Dtor | DestructiveMove | Copy | CopyIsNothrow

  /** The `manage` pointer of a vtable: `nop_manage` (the empty vtable) or
      `owning_manage<Copyable, T>`. */
  datatype Manager = Nop | Owning(copyable: bool, ty: PayloadType)

  /** A copy constructor or an allocation threw. */
  datatype Thrown = Thrown

  /** The cell is in the shape the manager expects: vacant for the empty
      vtable, T housed where `sbo<T>` says otherwise. */
  predicate Holds(m: Manager, c: Cell, h: Heap) {
    match m
    case Nop => c == Vacant
    case Owning(_, t) => Houses(t, c, h)
  }

  /** Copying the payload can throw: the copy constructor of an inline T is
      not noexcept, or T lives on the heap (the allocation can always throw). */
  predicate CopyMayThrow(m: Manager) {
    m.Owning? && !(Sbo(m.ty) && m.ty.nothrowCopy)
  }

  /** What a `manage` call leaves behind: the `from` and `to` cells, the heap,
      and the bool it returns. */
  datatype Effect = Effect(from: Cell, to: Cell, heap: Heap, answer: bool)

  /** `owning_manage<Copyable, T>(from, to, m)`. The copy constructor or the
      allocation throws when `fails` is set and throwing is possible at all.
      `mode::copy` on a manager built without Copyable is `std::unreachable()`
      in the source, hence excluded by the precondition. */
  function OwningManage(copyable: bool, t: PayloadType, from: Cell, to: Cell, h: Heap, m: Mode, fails: bool)
    : (r: Result<Effect, Thrown>)
    requires Bounded(h)
    requires m == Copy ==> copyable
    requires m != CopyIsNothrow ==> Houses(t, from, h)
    ensures r.Err? <==> m == Copy && fails && CopyMayThrow(Owning(copyable, t))
    ensures r.Ok? ==> r.value.answer == !CopyMayThrow(Owning(copyable, t))
  {
    if Sbo(t) then
      match m
      case Copy =>
        if fails && !t.nothrowCopy then Err(Thrown)
        else Ok(Effect(from, Inline(from.obj), h, t.nothrowCopy))
      case DestructiveMove => Ok(Effect(Vacant, Inline(from.obj), h, t.nothrowCopy))
      case Dtor => Ok(Effect(Vacant, to, h, t.nothrowCopy))
      case CopyIsNothrow => Ok(Effect(from, to, h, t.nothrowCopy))
    else
      match m
      case Dtor => Ok(Effect(Vacant, to, Free(h, from.addr), false))
      case DestructiveMove => Ok(Effect(Vacant, Boxed(from.addr), h, false))
      case Copy =>
        if fails then Err(Thrown)
        else
          var (h', a) := Alloc(h, h.objs[from.addr]);
          Ok(Effect(from, Boxed(a), h', false))
      case CopyIsNothrow => Ok(Effect(from, to, h, false))
  }

  /** `nop_manage`: touches nothing and answers true. */
  function NopManage(from: Cell, to: Cell, h: Heap, m: Mode): (r: Effect)
    ensures r.from == from && r.to == to && r.heap == h
    ensures r.answer
  {
    Effect(from, to, h, true)
  }

  /** Calling through a vtable's `manage` pointer. */
  function Manage(mgr: Manager, from: Cell, to: Cell, h: Heap, m: Mode, fails: bool): (r: Result<Effect, Thrown>)
    requires Bounded(h)
    requires m == Copy && mgr.Owning? ==> mgr.copyable
    requires m != CopyIsNothrow ==> Holds(mgr, from, h)
    ensures r.Err? <==> m == Copy && fails && CopyMayThrow(mgr)
    ensures r.Ok? ==> r.value.answer == !CopyMayThrow(mgr)
  {
    match mgr
    case Nop => Ok(NopManage(from, to, h, m))
    case Owning(c, t) => OwningManage(c, t, from, to, h, m, fails)
  }

  /** `vtable::dtor`: the payload is destroyed, its heap object (if any) freed,
      and nothing else on the heap changes. */
  function Destroy(mgr: Manager, c: Cell, h: Heap): (r: (Cell, Heap))
    requires Bounded(h) && Holds(mgr, c, h)
    ensures Holds(Nop, r.0, r.1)
    ensures r.1.objs == h.objs - AddrOf(c)
    ensures r.1.next == h.next && Bounded(r.1)
  {
    var e := Manage(mgr, c, Vacant, h, Dtor, false).value;
    (e.from, e.heap)
  }

  /** `vtable::destructive_move` into a vacant cell: the target receives the
      source's content unchanged (the inline object, or the very same heap
      pointer) and the source is left vacant; the heap is untouched. */
  function Relocate(mgr: Manager, c: Cell, h: Heap): (r: (Cell, Cell))
    requires Bounded(h) && Holds(mgr, c, h)
    ensures r.0 == Vacant && Holds(Nop, r.0, h)
    ensures r.1 == c && Holds(mgr, r.1, h)
  {
    var e := Manage(mgr, c, Vacant, h, DestructiveMove, false).value;
    assert e.heap == h;
    (e.from, e.to)
  }

  /** The heap grows by exactly what the new cell c owns, at an address not
      in use before; every old object stays where it was. */
  predicate Grows(h: Heap, h': Heap, c: Cell) {
    && (c.Boxed? ==> c.addr !in h.objs && h.next <= c.addr)
    && h'.objs.Keys == h.objs.Keys + AddrOf(c)
    && Stable(h, h')
    && Bounded(h')
  }

  /** `vtable::copy` into a vacant cell: fails exactly when the copy can throw
      and does; otherwise the new cell holds an equal object in a place of
      its own, and the source is untouched. */
  function CopyCell(mgr: Manager, c: Cell, h: Heap, fails: bool): (r: Result<(Cell, Heap), Thrown>)
    requires Bounded(h) && Holds(mgr, c, h)
    requires mgr.Owning? ==> mgr.copyable
    ensures r.Err? <==> fails && CopyMayThrow(mgr)
    ensures r.Ok? ==> Holds(mgr, r.value.0, r.value.1) && Grows(h, r.value.1, r.value.0)
    ensures r.Ok? && mgr.Owning? ==>
              && Houses(mgr.ty, c, r.value.1)
              && Housed(mgr.ty, r.value.0, r.value.1) == Housed(mgr.ty, c, h)
              && Housed(mgr.ty, c, r.value.1) == Housed(mgr.ty, c, h)
  {
    match Manage(mgr, c, Vacant, h, Copy, fails)
    case Err(e) => Err(e)
    case Ok(e) => Ok((e.to, e.heap))
  }

  /** `vtable::noexcept_copyable`: a copy through this manager cannot throw. */
  function NoexceptCopyable(mgr: Manager): (r: bool)
    ensures r <==> !CopyMayThrow(mgr)
  {
    Manage(mgr, Vacant, Vacant, Heap(map[], 0), CopyIsNothrow, false).value.answer
  }

  /** The answer of `noexcept_copyable` is exact: it is true if and only if
      every copy through the manager succeeds. */
  lemma NoexceptCopyableIsExact(mgr: Manager, c: Cell, h: Heap)
    requires Bounded(h) && Holds(mgr, c, h)
    requires mgr.Owning? ==> mgr.copyable
    ensures NoexceptCopyable(mgr) <==> (forall fails: bool :: CopyCell(mgr, c, h, fails).Ok?)
  {
    if !NoexceptCopyable(mgr) {
      assert CopyCell(mgr, c, h, true).Err?;
    }
  }

  /** `construct<Copyable, T>` followed by installing `owning_manage`: the new
      object is housed where `sbo<T>` says, allocated fresh when on the heap.
      T's constructor or the allocation of `new T{...}` may throw, which
      `fails` decides; the exception leaves no object and no allocation
      behind. */
  function Emplace(copyable: bool, t: PayloadType, v: nat, h: Heap, fails: bool)
    : (r: Result<(Manager, Cell, Heap), Thrown>)
    requires Bounded(h)
    ensures r.Err? <==> fails
    ensures r.Ok? ==> r.value.0 == Owning(copyable, t)
    ensures r.Ok? ==> Holds(r.value.0, r.value.1, r.value.2) && Housed(t, r.value.1, r.value.2) == Obj(t, Value(v))
    ensures r.Ok? ==> Grows(h, r.value.2, r.value.1)
    ensures r.Ok? ==> (r.value.1.Inline? <==> Sbo(t))
  {
    if fails then Err(Thrown)
    else if Sbo(t) then Ok((Owning(copyable, t), Inline(Obj(t, Value(v))), h))
    else
      var (h', a) := Alloc(h, Obj(t, Value(v)));
      Ok((Owning(copyable, t), Boxed(a), h'))
  }

  /** The three destructive moves of `vtable::swap` through a vacant temporary
      exchange the two cells' contents and leave the heap alone. */
  function SwapCells(ma: Manager, ca: Cell, mb: Manager, cb: Cell, h: Heap): (r: (Cell, Cell))
    requires Bounded(h) && Holds(ma, ca, h) && Holds(mb, cb, h)
    ensures r == (cb, ca)
    ensures Holds(mb, r.0, h) && Holds(ma, r.1, h)
  {
    var (ca1, tmp) := Relocate(ma, ca, h);
    var (cb1, ca2) := Relocate(mb, cb, h);
    var (tmp1, cb2) := Relocate(ma, tmp, h);
    (ca2, cb2)
  }

  /** Heap changes that keep every surviving object in place, and keep the
      cell's own object alive, leave what the cell holds unchanged. */
  lemma HoldsStable(m: Manager, c: Cell, h: Heap, h': Heap)
    requires Holds(m, c, h) && Stable(h, h')
    requires c.Boxed? ==> c.addr in h'.objs
    ensures Holds(m, c, h')
    ensures m.Owning? ==> Housed(m.ty, c, h') == Housed(m.ty, c, h)
  {
    if m.Owning? {
      HousesFrame(m.ty, c, h, h');
    }
  }

  /** Addresses owned by two cells never coincide. */
  predicate Apart(c1: Cell, c2: Cell) {
    AddrOf(c1) !! AddrOf(c2)
  }

  /** Copy assignment's branch for a copy that cannot throw: destroy the
      destination's content, then copy the source straight into it. The
      result holds an equal object; the heap loses the old object and gains
      only what the new cell owns. */
  function CopyOverDirect(md: Manager, cd: Cell, ms: Manager, cs: Cell, h: Heap): (r: (Cell, Heap))
    requires Bounded(h) && Holds(md, cd, h) && Holds(ms, cs, h) && Apart(cd, cs)
    requires ms.Owning? ==> ms.copyable
    ensures Holds(ms, r.0, r.1)
    ensures r.0.Boxed? ==> r.0.addr !in h.objs
    ensures r.1.objs.Keys == (h.objs.Keys - AddrOf(cd)) + AddrOf(r.0)
    ensures Stable(h, r.1) && Bounded(r.1)
    ensures ms.Owning? ==> Housed(ms.ty, r.0, r.1) == Housed(ms.ty, cs, h)
  {
    var (_, h1) := Destroy(md, cd, h);
    HoldsStable(ms, cs, h, h1);
    CopyCell(ms, cs, h1, false).value
  }

  /** Copy assignment's branch for a copy that may throw: copy into a
      temporary first (a throw changes nothing), then destroy the
      destination's content and destructively move the temporary in. */
  function CopyOverStaged(md: Manager, cd: Cell, ms: Manager, cs: Cell, h: Heap, fails: bool)
    : (r: Result<(Cell, Heap), Thrown>)
    requires Bounded(h) && Holds(md, cd, h) && Holds(ms, cs, h) && Apart(cd, cs)
    requires ms.Owning? ==> ms.copyable
    ensures r.Err? <==> fails && CopyMayThrow(ms)
    ensures r.Ok? ==>
              && Holds(ms, r.value.0, r.value.1)
              && (r.value.0.Boxed? ==> r.value.0.addr !in h.objs)
              && r.value.1.objs.Keys == (h.objs.Keys - AddrOf(cd)) + AddrOf(r.value.0)
              && Stable(h, r.value.1) && Bounded(r.value.1)
              && (ms.Owning? ==> Housed(ms.ty, r.value.0, r.value.1) == Housed(ms.ty, cs, h))
  {
    match CopyCell(ms, cs, h, fails)
    case Err(e) => Err(e)
    case Ok((tmp, h1)) =>
      HoldsStable(md, cd, h, h1);
      var (_, h2) := Destroy(md, cd, h1);
      HoldsStable(ms, tmp, h1, h2);
      var (_, c) := Relocate(ms, tmp, h2);
      Ok((c, h2))
  }

  /** When the copy succeeds, both branches leave the same cell and the same
      heap: the choice between them only matters when the copy throws. */
  lemma CopyOverPathsAgree(md: Manager, cd: Cell, ms: Manager, cs: Cell, h: Heap)
    requires Bounded(h) && Holds(md, cd, h) && Holds(ms, cs, h) && Apart(cd, cs)
    requires ms.Owning? ==> ms.copyable
    ensures CopyOverStaged(md, cd, ms, cs, h, false) == Ok(CopyOverDirect(md, cd, ms, cs, h))
  {
    if ms.Owning? && !Sbo(ms.ty) && cd.Boxed? {
      var o := h.objs[cs.addr];
      assert cd.addr < h.next;
      assert h.objs[h.next := o] - {cd.addr} == (h.objs - {cd.addr})[h.next := o];
    }
  }

  /** Copy assignment between distinct wrappers (the body of
      `operator=(const copyable_function&)`), with the staged branch's
      relocation corrected to `destructive_move` (as written it calls a
      `move` the vtable lacks, see `CopyOverAsWritten`): a copy that cannot
      throw is made in place, one that can is staged through a temporary.
      Only a copy that may throw can fail, and a failure leaves everything as
      it was. */
  function CopyOver(md: Manager, cd: Cell, ms: Manager, cs: Cell, h: Heap, fails: bool)
    : (r: Result<(Cell, Heap), Thrown>)
    requires Bounded(h) && Holds(md, cd, h) && Holds(ms, cs, h) && Apart(cd, cs)
    requires ms.Owning? ==> ms.copyable
    ensures r.Err? <==> fails && CopyMayThrow(ms)
    ensures r.Ok? ==>
              && Holds(ms, r.value.0, r.value.1)
              && (r.value.0.Boxed? ==> r.value.0.addr !in h.objs)
              && r.value.1.objs.Keys == (h.objs.Keys - AddrOf(cd)) + AddrOf(r.value.0)
              && Stable(h, r.value.1) && Bounded(r.value.1)
              && (ms.Owning? ==> Housed(ms.ty, r.value.0, r.value.1) == Housed(ms.ty, cs, h))
  {
    if NoexceptCopyable(ms) then Ok(CopyOverDirect(md, cd, ms, cs, h))
    else CopyOverStaged(md, cd, ms, cs, h, fails)
  }

  /** The members `vtable<Traits>` declares, by name: its two pointers,
      the four thin wrappers over `manage`, and the five static helpers. */
  const VtableMembers: set<string> :=
    {"manage", "dispatch", "dtor", "destructive_move", "copy", "noexcept_copyable",
     "move_ctor", "move_assign", "swap", "init_functor", "init_empty"}

  /** A member function template as the compiler sees it: its instantiation
      compiles to a value, or is ill-formed because it names a member that
      does not exist. */
  datatype Compiled<+T> = Compiles(value: T) | IllFormed(missing: string)

  /** Copy assignment as written, for a vtable declaring `members`: the
      staged branch relocates the temporary with `other.vptr->move(&tmp,
      &storage)`. The branch is chosen by a run-time `if`, so it is
      instantiated with the operator, and the operator compiles only if
      `move` names a member (which would then relocate as `destructive_move`
      does). */
  function CopyOverAsWritten(members: set<string>, md: Manager, cd: Cell, ms: Manager, cs: Cell, h: Heap, fails: bool)
    : (r: Compiled<Result<(Cell, Heap), Thrown>>)
    requires Bounded(h) && Holds(md, cd, h) && Holds(ms, cs, h) && Apart(cd, cs)
    requires ms.Owning? ==> ms.copyable
    ensures r.IllFormed? <==> "move" !in members
    ensures r.IllFormed? ==> r.missing == "move"
  {
    if "move" in members then Compiles(CopyOver(md, cd, ms, cs, h, fails))
    else IllFormed("move")
  }

  /** With the vtable as declared, `operator=(const copyable_function&)` is
      ill-formed, whichever branch would run. Overload resolution selects it
      for a const lvalue source only (`Owning.SelectAssignment`); a non-const
      lvalue goes through `operator=(F&&)` instead. The relocation the staged
      branch evidently means is the declared `destructive_move`, which
      `CopyOverStaged` performs. */
  lemma CopyAssignIsIllFormed(md: Manager, cd: Cell, ms: Manager, cs: Cell, h: Heap, fails: bool)
    requires Bounded(h) && Holds(md, cd, h) && Holds(ms, cs, h) && Apart(cd, cs)
    requires ms.Owning? ==> ms.copyable
    ensures CopyOverAsWritten(VtableMembers, md, cd, ms, cs, h, fails) == IllFormed("move")
    ensures "destructive_move" in VtableMembers
  {
  }

  /** `T{...}.swap(*this)` and the temporary's destruction: the wrapper's
      content (mOld, cOld), valid in h0, is exchanged with a temporary's
      (mNew, cNew) built beside it, which turned h0 into h1, and the
      temporary then destroys the old content. */
  function Supplant(mOld: Manager, cOld: Cell, mNew: Manager, cNew: Cell, h0: Heap, h1: Heap): (r: (Cell, Heap))
    requires Holds(mOld, cOld, h0) && Grows(h0, h1, cNew) && Holds(mNew, cNew, h1)
    ensures r.0 == cNew && Holds(mNew, r.0, r.1)
    ensures r.1.objs == h1.objs - AddrOf(cOld)
    ensures r.1.objs.Keys == (h0.objs.Keys - AddrOf(cOld)) + AddrOf(cNew)
    ensures Stable(h0, r.1) && Bounded(r.1)
    ensures mNew.Owning? ==> Housed(mNew.ty, r.0, r.1) == Housed(mNew.ty, cNew, h1)
  {
    HoldsStable(mOld, cOld, h0, h1);
    var (tmp, cell) := SwapCells(mNew, cNew, mOld, cOld, h1);
    var (_, h') := Destroy(mOld, tmp, h1);
    HoldsStable(mNew, cell, h1, h');
    (cell, h')
  }
}
