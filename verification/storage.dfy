/** The storage cell (`storage_t`) and the heap it may point into, shared by
    all owning wrappers.

    The source's cell is an untagged union of three pointers' worth of bytes
    and one pointer; which member is live is known only from the manager
    attached to it. Here the cell is tagged, and the manager decides which tag
    is legal (`Houses`). `Vacant` stands for every cell content nothing will
    read again: uninitialised bytes, a destroyed inline object, a nulled or
    freed pointer. The heap is an explicit map from addresses to objects with
    a bump allocator, so ownership and leak-freedom can be stated. */
module Storage {
  import opened Qualifiers

  /** Bytes in a data pointer (the model takes a 64-bit target). */
  const PointerWidth: nat := 8

  /** `sizeof(storage_t::sbo)`: three pointers. */
  const InlineCapacity: nat := 3 * PointerWidth

  /** A concrete callable type T as far as the engine can see it: an identity,
      its size, whether its move and copy constructors are noexcept, whether
      it is copy-constructible at all, and its call operators. */
  datatype PayloadType = PayloadType(
    name: nat,
    size: nat,
    nothrowMove: bool,
    copyable: bool,
    nothrowCopy: bool,
    calls: seq<Overload>)

  /** `sbo<T>`: T is stored inside the cell when it fits the inline buffer and
      moving it cannot throw; otherwise it is allocated on the heap. */
  predicate Sbo(t: PayloadType) {
    t.size <= InlineCapacity && t.nothrowMove
  }

  /** The state of a live object: a value, or what is left after it has been
      moved from (only the older `ptl::function` leaves such objects alive). */
  datatype ObjState = Value(v: nat) | MovedFrom

  /** A live object of a payload type. */
  datatype Obj = Obj(ty: PayloadType, state: ObjState)

  type Addr = nat

  /** A storage cell: nothing to read, an object in the inline buffer, or a
      pointer to a heap object. */
  datatype Cell = Vacant | Inline(obj: Obj) | Boxed(addr: Addr)

  /** Heap objects by address; every address in use is below `next`, the
      address the next allocation returns. */
  datatype Heap = Heap(objs: map<Addr, Obj>, next: Addr)

  predicate Bounded(h: Heap) {
    forall a | a in h.objs :: a < h.next
  }

  /** `new T{...}`: the object at a fresh address. */
  function Alloc(h: Heap, o: Obj): (r: (Heap, Addr))
    requires Bounded(h)
    ensures r.1 !in h.objs
    ensures r.0.objs == h.objs[r.1 := o]
    ensures Bounded(r.0)
  {
    (Heap(h.objs[h.next := o], h.next + 1), h.next)
  }

  /** `delete p`: the object at a is gone, every other one is untouched. */
  function Free(h: Heap, a: Addr): (r: Heap)
    ensures r.objs == h.objs - {a}
    ensures Bounded(h) ==> Bounded(r)
  {
    Heap(h.objs - {a}, h.next)
  }

  /** The cell houses an object of type t where `sbo<T>` puts it. */
  predicate Houses(t: PayloadType, c: Cell, h: Heap) {
    if Sbo(t) then c.Inline? && c.obj.ty == t
    else c.Boxed? && c.addr in h.objs && h.objs[c.addr].ty == t
  }

  /** The object a housing cell holds. */
  function Housed(t: PayloadType, c: Cell, h: Heap): (o: Obj)
    requires Houses(t, c, h)
    ensures o.ty == t
  {
    if c.Inline? then c.obj else h.objs[c.addr]
  }

  /** A cell's housing is unaffected by heap changes away from its address. */
  lemma HousesFrame(t: PayloadType, c: Cell, h: Heap, h': Heap)
    requires Houses(t, c, h)
    requires c.Boxed? ==> c.addr in h'.objs && h'.objs[c.addr] == h.objs[c.addr]
    ensures Houses(t, c, h') && Housed(t, c, h') == Housed(t, c, h)
  {
  }

  /** The heap address a cell owns, if any. */
  function AddrOf(c: Cell): set<Addr> {
    if c.Boxed? then {c.addr} else {}
  }

  type Id = nat

  /** Every wrapper object alive at once: its header (manager pointer and
      whatever else its C++ type fixes) and its cell, by object identity, and
      the heap. Two wrappers are the same object exactly when their ids are
      equal, so `&lhs == &rhs` is `i == j`. */
  datatype World<H> = World(headers: map<Id, H>, cells: map<Id, Cell>, heap: Heap)

  /** The heap addresses the cells own. */
  function Owned(cells: map<Id, Cell>): set<Addr> {
    set i | i in cells && cells[i].Boxed? :: cells[i].addr
  }

  /** No two cells own the same address. */
  predicate Exclusive(cells: map<Id, Cell>) {
    forall i, j | i in cells && j in cells && i != j && cells[i].Boxed? && cells[j].Boxed? ::
      cells[i].addr != cells[j].addr
  }

  /** Leak-freedom and exclusive ownership: the live heap objects are exactly
      the ones some cell points to, each by one cell only. */
  predicate HeapOk(cells: map<Id, Cell>, h: Heap) {
    && Exclusive(cells)
    && h.objs.Keys == Owned(cells)
    && Bounded(h)
  }

  lemma OwnedPut(cells: map<Id, Cell>, i: Id, c: Cell)
    ensures Owned(cells[i := c]) == Owned(cells - {i}) + AddrOf(c)
  {
    var m := cells[i := c];
    forall a | a in Owned(m)
      ensures a in Owned(cells - {i}) + AddrOf(c)
    {
      var k :| k in m && m[k].Boxed? && m[k].addr == a;
      if k != i {
        assert k in cells - {i};
      }
    }
    forall a | a in Owned(cells - {i}) + AddrOf(c)
      ensures a in Owned(m)
    {
      if a in AddrOf(c) {
        assert m[i] == c;
      } else {
        var k :| k in cells - {i} && (cells - {i})[k].Boxed? && (cells - {i})[k].addr == a;
        assert m[k] == cells[k];
      }
    }
  }

  lemma OwnedRemove(cells: map<Id, Cell>, i: Id)
    requires Exclusive(cells)
    requires i in cells
    ensures Owned(cells - {i}) == Owned(cells) - AddrOf(cells[i])
  {
    var m := cells - {i};
    forall a | a in Owned(m)
      ensures a in Owned(cells) - AddrOf(cells[i])
    {
      var k :| k in m && m[k].Boxed? && m[k].addr == a;
      assert k in cells && cells[k] == m[k];
    }
    forall a | a in Owned(cells) - AddrOf(cells[i])
      ensures a in Owned(m)
    {
      var k :| k in cells && cells[k].Boxed? && cells[k].addr == a;
      assert k != i;
      assert k in m && m[k] == cells[k];
    }
  }

  lemma ExclusivePut(cells: map<Id, Cell>, i: Id, c: Cell)
    requires Exclusive(cells - {i})
    requires c.Boxed? ==> c.addr !in Owned(cells - {i})
    ensures Exclusive(cells[i := c])
  {
    var m := cells[i := c];
    forall j, k | j in m && k in m && j != k && m[j].Boxed? && m[k].Boxed?
      ensures m[j].addr != m[k].addr
    {
      if j == i {
        assert k in cells - {i};
      } else if k == i {
        assert j in cells - {i};
      } else {
        assert j in cells - {i} && k in cells - {i};
      }
    }
  }

  lemma ExclusiveRemove(cells: map<Id, Cell>, i: Id)
    requires Exclusive(cells)
    ensures Exclusive(cells - {i})
  {
  }

  /** Moving the content of cell s to a fresh or vacated cell d and leaving s
      vacant keeps ownership exclusive and the owned set unchanged. */
  lemma HandOff(cells: map<Id, Cell>, d: Id, s: Id)
    requires Exclusive(cells)
    requires s in cells && d != s
    requires d in cells ==> !cells[d].Boxed?
    ensures Exclusive(cells[d := cells[s]][s := Vacant])
    ensures Owned(cells[d := cells[s]][s := Vacant]) == Owned(cells)
  {
    var rest := cells - {s};
    var m1 := cells[d := cells[s]];
    assert m1 - {s} == rest[d := cells[s]];
    OwnedRemove(cells, s);
    ExclusiveRemove(cells, s);
    if d in rest {
      OwnedRemove(rest, d);
    } else {
      assert rest - {d} == rest;
    }
    ExclusiveRemove(rest, d);
    OwnedPut(rest, d, cells[s]);
    ExclusivePut(rest, d, cells[s]);
    OwnedPut(m1, s, Vacant);
    ExclusivePut(m1, s, Vacant);
  }

  /** The heap address cell i of cells owns, if any. */
  function AddrAt(cells: map<Id, Cell>, i: Id): set<Addr> {
    if i in cells then AddrOf(cells[i]) else {}
  }

  /** Heap objects are never changed in place: an address live before and
      after holds the same object. */
  predicate Stable(h: Heap, h': Heap) {
    forall a | a in h.objs && a in h'.objs :: h'.objs[a] == h.objs[a]
  }

  /** Replacing cell i by c, where c owns nothing or a freshly allocated
      address, and the heap loses what cell i owned and gains what c owns,
      keeps the heap leak-free and ownership exclusive. */
  lemma HeapOkPut(cells: map<Id, Cell>, h: Heap, i: Id, c: Cell, h': Heap)
    requires HeapOk(cells, h)
    requires c.Boxed? ==> c.addr !in h.objs
    requires h'.objs.Keys == (h.objs.Keys - AddrAt(cells, i)) + AddrOf(c)
    requires Bounded(h')
    ensures HeapOk(cells[i := c], h')
  {
    OwnedPut(cells, i, c);
    if i in cells {
      OwnedRemove(cells, i);
    } else {
      assert cells - {i} == cells;
    }
    ExclusiveRemove(cells, i);
    ExclusivePut(cells, i, c);
  }

  /** Removing cell i and freeing what it owned keeps the heap leak-free. */
  lemma HeapOkRemove(cells: map<Id, Cell>, h: Heap, i: Id, h': Heap)
    requires HeapOk(cells, h)
    requires i in cells
    requires h'.objs.Keys == h.objs.Keys - AddrOf(cells[i])
    requires Bounded(h')
    ensures HeapOk(cells - {i}, h')
  {
    OwnedRemove(cells, i);
    ExclusiveRemove(cells, i);
  }

  /** Moving the content of cell s into a fresh or vacant cell d, leaving s
      vacant, keeps the heap leak-free without touching it. */
  lemma HeapOkHandOff(cells: map<Id, Cell>, h: Heap, d: Id, s: Id)
    requires HeapOk(cells, h)
    requires s in cells && d != s
    requires d in cells ==> !cells[d].Boxed?
    ensures HeapOk(cells[d := cells[s]][s := Vacant], h)
  {
    HandOff(cells, d, s);
  }

  /** Exchanging the contents of two cells keeps the heap leak-free without
      touching it. */
  lemma HeapOkExchange(cells: map<Id, Cell>, h: Heap, a: Id, b: Id)
    requires HeapOk(cells, h)
    requires a in cells && b in cells
    ensures HeapOk(cells[a := cells[b]][b := cells[a]], h)
  {
    var m := cells[a := cells[b]][b := cells[a]];
    forall x | x in Owned(m)
      ensures x in Owned(cells)
    {
      var k :| k in m && m[k].Boxed? && m[k].addr == x;
      if k == b {
        assert cells[a].addr == x;
      } else if k == a {
        assert cells[b].addr == x;
      } else {
        assert cells[k] == m[k];
      }
    }
    forall x | x in Owned(cells)
      ensures x in Owned(m)
    {
      var k :| k in cells && cells[k].Boxed? && cells[k].addr == x;
      if k == a {
        assert m[b] == cells[a];
      } else if k == b {
        assert m[a] == cells[b];
      } else {
        assert m[k] == cells[k];
      }
    }
    forall j, k | j in m && k in m && j != k && m[j].Boxed? && m[k].Boxed?
      ensures m[j].addr != m[k].addr
    {
      var j' := if j == a then b else if j == b then a else j;
      var k' := if k == a then b else if k == b then a else k;
      assert m[j] == cells[j'] && m[k] == cells[k'];
    }
  }

  /** Exchanging the entries at a and b twice restores the map. */
  lemma ExchangeTwice<V>(m: map<Id, V>, a: Id, b: Id)
    requires a in m && b in m
    ensures var m1 := m[a := m[b]][b := m[a]]; m1[a := m1[b]][b := m1[a]] == m
  {
    var m1 := m[a := m[b]][b := m[a]];
    if a != b {
      assert m1[a] == m[b] && m1[b] == m[a];
    }
  }
}
