/** The argument of a wrapper's converting constructor (and of `operator=(F&&)`,
    which constructs a temporary from it), as far as the constraints and the
    null check of the three owning wrappers can see it.

    The constructors take `F&&`. For an lvalue argument F is deduced as an
    lvalue reference, for an rvalue it is the plain type; `VT` is `decay_t<F>`
    in both cases. */
module Arguments {
  import Traits
  import opened Storage

  /** The class templates a wrapper argument can be a specialisation of:
      `move_only_function`, `copyable_function` (inc/copyable_function.hpp)
      and the older `ptl::function` (inc/function.hpp). */
  datatype Template = MoveOnlyFunction | CopyableFunction | PtlFunction

  /** What the argument's type is: a class object, a function or member
      pointer (null or not, passed as an lvalue or not), or another wrapper
      (of some template and signature form, empty or not). */
  datatype Shape =
    | ClassObject
    | FunctionPointer(isNull: bool, isLvalue: bool)
    | MemberPointer(isNull: bool, isLvalue: bool)
    | WrapperObject(template: Template, form: Traits.Form, isEmpty: bool)

  /** The argument: its decayed type VT, the value the target is constructed
      from, and its shape. It is a value, not a wrapper object of the world:
      when it is a wrapper passed as an rvalue, constructing VT from it moves
      from it, and what that leaves behind in the argument is not part of
      this description. */
  datatype Arg = Arg(ty: PayloadType, v: nat, shape: Shape)

  /** The argument is a null value of a kind a constructor of template `own`
      checks with `!func`: a null function pointer, a null member pointer,
      or an empty wrapper of the same class template (any signature). Such an
      argument makes an empty wrapper, as the C++23 standard's clause
      [func.wrap.move.ctor] prescribes for `move_only_function`. */
  predicate NullArgument(own: Template, shape: Shape) {
    match shape
    case ClassObject => false
    case FunctionPointer(n, _) => n
    case MemberPointer(n, _) => n
    case WrapperObject(t, _, e) => t == own && e
  }

  /** The arguments whose `!func` test the constructors actually reach: the
      `if constexpr` asks `is_function_v<remove_pointer_t<F>>` and
      `is_member_pointer_v<F>` of the undecayed F, and for an lvalue pointer
      F is a reference, for which both are false. */
  predicate NullTestAsWritten(own: Template, shape: Shape) {
    match shape
    case ClassObject => false
    case FunctionPointer(n, lvalue) => n && !lvalue
    case MemberPointer(n, lvalue) => n && !lvalue
    case WrapperObject(t, _, e) => t == own && e
  }

  /** The test as written catches exactly the null arguments that are not
      lvalue pointers. */
  lemma NullTestAsWrittenMissesLvalues(own: Template, shape: Shape)
    ensures NullTestAsWritten(own, shape) <==>
              && NullArgument(own, shape)
              && !((shape.FunctionPointer? || shape.MemberPointer?) && shape.isLvalue)
  {
  }

  /** A null function pointer held in a variable (`void (*fp)() = nullptr;
      move_only_function<void()> f{fp};`) is a null argument the test as
      written lets through. */
  lemma LvalueNullPointerSlipsThrough(own: Template)
    ensures NullArgument(own, FunctionPointer(true, true))
    ensures !NullTestAsWritten(own, FunctionPointer(true, true))
  {
  }
}
