/** The constructibility matrix of test/copyable_function.cpp:311-495: twelve
    callable types, each with one call operator (two for the types that
    delete their `const &&` overload), against the twelve signature forms of
    `copyable_function<void(int) ...>`. */
module Matrix {
  import opened Qualifiers
  import Traits

  /** The call operators of functor0 ... functor11, in declaration order. */
  const Functors: seq<seq<Overload>> := [
    [Overload(false, NoRef, false, false)],                                        // functor0: ()
    [Overload(false, LRef, false, false)],                                         // functor1: () &
    [Overload(false, RRef, false, false)],                                         // functor2: () &&
    [Overload(true, NoRef, false, false)],                                         // functor3: () const
    [Overload(true, LRef, false, false), Overload(true, RRef, false, true)],       // functor4: () const &, deleted () const &&
    [Overload(true, RRef, false, false)],                                          // functor5: () const &&
    [Overload(false, NoRef, true, false)],                                         // functor6: () noexcept
    [Overload(false, LRef, true, false)],                                          // functor7: () & noexcept
    [Overload(false, RRef, true, false)],                                          // functor8: () && noexcept
    [Overload(true, NoRef, true, false)],                                          // functor9: () const noexcept
    [Overload(true, LRef, true, false), Overload(true, RRef, true, true)],         // functor10: () const & noexcept, deleted () const && noexcept
    [Overload(true, RRef, true, false)]                                            // functor11: () const && noexcept
  ]

  /** The signature forms in the order each block of the test lists them. */
  const Columns: seq<Traits.Form> := [
    Traits.Plain, Traits.Const, Traits.Lvalue, Traits.ConstLvalue, Traits.Rvalue, Traits.ConstRvalue,
    Traits.Noexcept, Traits.ConstNoexcept, Traits.LvalueNoexcept, Traits.ConstLvalueNoexcept,
    Traits.RvalueNoexcept, Traits.ConstRvalueNoexcept
  ]

  const Y := true
  const N := false

  /** The expected `is_constructible_v` of each `static_assert`, row per functor. */
  const Expected: seq<seq<bool>> := [
    [Y, N, Y, N, Y, N, N, N, N, N, N, N],
    [N, N, Y, N, N, N, N, N, N, N, N, N],
    [N, N, N, N, Y, N, N, N, N, N, N, N],
    [Y, Y, Y, Y, Y, Y, N, N, N, N, N, N],
    [N, N, Y, Y, N, N, N, N, N, N, N, N],
    [N, N, N, N, Y, Y, N, N, N, N, N, N],
    [Y, N, Y, N, Y, N, Y, N, Y, N, Y, N],
    [N, N, Y, N, N, N, N, N, Y, N, N, N],
    [N, N, N, N, Y, N, N, N, N, N, Y, N],
    [Y, Y, Y, Y, Y, Y, Y, Y, Y, Y, Y, Y],
    [N, N, Y, Y, N, N, N, N, Y, Y, N, N],
    [N, N, N, N, Y, Y, N, N, N, N, Y, Y]
  ]

  /** A `const &` call operator paired with a deleted `const &&` one (functor4,
      functor10): lvalues select the first, rvalues the deleted second, so
      only lvalue calls are well-formed. */
  lemma DeletedRvaluePair(noexc: bool, e: ObjExpr, nothrow: bool)
    ensures Invocable([Overload(true, LRef, noexc, false), Overload(true, RRef, noexc, true)], e, nothrow)
            <==> e.isLvalue && (nothrow ==> noexc)
  {
    var ops := [Overload(true, LRef, noexc, false), Overload(true, RRef, noexc, true)];
    if e.isLvalue {
      assert IsBest(ops, 0, e);
    } else {
      assert IsBest(ops, 1, e);
    }
    InvocableIffBestUsable(ops, e, nothrow);
  }

  /** Functor i behaves as the test's block for it asserts, on all twelve
      signature forms. */
  ghost predicate RowMatches(i: nat)
    requires i < 12
  {
    forall j | 0 <= j < 12 :: Traits.IsCallableFrom(Columns[j], Functors[i]) == Expected[i][j]
  }

  /** A functor with one call operator, on column j: its acceptance is the
      closed form `AcceptsSingle`. */
  lemma SingleEntry(o: Overload, j: nat)
    requires j < 12
    ensures Traits.IsCallableFrom(Columns[j], [o]) == Traits.AcceptsSingle(Traits.SigOf(Columns[j]), o)
  {
    Traits.IsCallableFromIsAccepts(Columns[j], [o]);
    Traits.AcceptsSingleOverload(Traits.SigOf(Columns[j]), o);
  }

  /** A `const &` call operator paired with a deleted `const &&` one, on
      column j: accepted exactly by the `&`-qualified forms whose noexcept the
      operator can honour. */
  lemma PairEntry(noexc: bool, j: nat)
    requires j < 12
    ensures Traits.IsCallableFrom(Columns[j], [Overload(true, LRef, noexc, false), Overload(true, RRef, noexc, true)])
            == (Traits.SigOf(Columns[j]).ref == LRef && (Traits.SigOf(Columns[j]).isNoexcept ==> noexc))
  {
    var s := Traits.SigOf(Columns[j]);
    Traits.IsCallableFromIsAccepts(Columns[j], [Overload(true, LRef, noexc, false), Overload(true, RRef, noexc, true)]);
    DeletedRvaluePair(noexc, ExprOf(Traits.DeclaredQuals(s)), s.isNoexcept);
    DeletedRvaluePair(noexc, ExprOf(Traits.CallQuals(s)), s.isNoexcept);
  }

  lemma Row0()
    ensures RowMatches(0)
  {
    assert Functors[0] == [Functors[0][0]];
    forall j | 0 <= j < 12
      ensures Traits.IsCallableFrom(Columns[j], Functors[0]) == Expected[0][j]
    {
      SingleEntry(Functors[0][0], j);
    }
  }

  lemma Row1()
    ensures RowMatches(1)
  {
    assert Functors[1] == [Functors[1][0]];
    forall j | 0 <= j < 12
      ensures Traits.IsCallableFrom(Columns[j], Functors[1]) == Expected[1][j]
    {
      SingleEntry(Functors[1][0], j);
    }
  }

  lemma Row2()
    ensures RowMatches(2)
  {
    assert Functors[2] == [Functors[2][0]];
    forall j | 0 <= j < 12
      ensures Traits.IsCallableFrom(Columns[j], Functors[2]) == Expected[2][j]
    {
      SingleEntry(Functors[2][0], j);
    }
  }

  lemma Row3()
    ensures RowMatches(3)
  {
    assert Functors[3] == [Functors[3][0]];
    forall j | 0 <= j < 12
      ensures Traits.IsCallableFrom(Columns[j], Functors[3]) == Expected[3][j]
    {
      SingleEntry(Functors[3][0], j);
    }
  }

  lemma Row4()
    ensures RowMatches(4)
  {
    forall j | 0 <= j < 12
      ensures Traits.IsCallableFrom(Columns[j], Functors[4]) == Expected[4][j]
    {
      PairEntry(false, j);
    }
  }

  lemma Row5()
    ensures RowMatches(5)
  {
    assert Functors[5] == [Functors[5][0]];
    forall j | 0 <= j < 12
      ensures Traits.IsCallableFrom(Columns[j], Functors[5]) == Expected[5][j]
    {
      SingleEntry(Functors[5][0], j);
    }
  }

  lemma Row6()
    ensures RowMatches(6)
  {
    assert Functors[6] == [Functors[6][0]];
    forall j | 0 <= j < 12
      ensures Traits.IsCallableFrom(Columns[j], Functors[6]) == Expected[6][j]
    {
      SingleEntry(Functors[6][0], j);
    }
  }

  lemma Row7()
    ensures RowMatches(7)
  {
    assert Functors[7] == [Functors[7][0]];
    forall j | 0 <= j < 12
      ensures Traits.IsCallableFrom(Columns[j], Functors[7]) == Expected[7][j]
    {
      SingleEntry(Functors[7][0], j);
    }
  }

  lemma Row8()
    ensures RowMatches(8)
  {
    assert Functors[8] == [Functors[8][0]];
    forall j | 0 <= j < 12
      ensures Traits.IsCallableFrom(Columns[j], Functors[8]) == Expected[8][j]
    {
      SingleEntry(Functors[8][0], j);
    }
  }

  lemma Row9()
    ensures RowMatches(9)
  {
    assert Functors[9] == [Functors[9][0]];
    forall j | 0 <= j < 12
      ensures Traits.IsCallableFrom(Columns[j], Functors[9]) == Expected[9][j]
    {
      SingleEntry(Functors[9][0], j);
    }
  }

  lemma Row10()
    ensures RowMatches(10)
  {
    forall j | 0 <= j < 12
      ensures Traits.IsCallableFrom(Columns[j], Functors[10]) == Expected[10][j]
    {
      PairEntry(true, j);
    }
  }

  lemma Row11()
    ensures RowMatches(11)
  {
    assert Functors[11] == [Functors[11][0]];
    forall j | 0 <= j < 12
      ensures Traits.IsCallableFrom(Columns[j], Functors[11]) == Expected[11][j]
    {
      SingleEntry(Functors[11][0], j);
    }
  }

  /** The binding rule reproduces all 144 entries of the matrix. */
  lemma MatrixMatches()
    ensures forall i | 0 <= i < 12 :: RowMatches(i)
  {
    forall i | 0 <= i < 12
      ensures RowMatches(i)
    {
      if i == 0 {
        Row0();
      } else if i == 1 {
        Row1();
      } else if i == 2 {
        Row2();
      } else if i == 3 {
        Row3();
      } else if i == 4 {
        Row4();
      } else if i == 5 {
        Row5();
      } else if i == 6 {
        Row6();
      } else if i == 7 {
        Row7();
      } else if i == 8 {
        Row8();
      } else if i == 9 {
        Row9();
      } else if i == 10 {
        Row10();
      } else {
        Row11();
      }
    }
  }
}
