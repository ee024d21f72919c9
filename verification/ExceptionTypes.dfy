/** Exception types of the e4c library and the subtype test of `E4C_CATCH`. */
module ExceptionTypes {

  /** An exception type with its chain of supertypes; a root is its own supertype. */
  datatype ExcType =
    | Root(name: string, defaultMessage: string)
    | Sub(name: string, defaultMessage: string, super: ExcType)

  const RUNTIME_EXCEPTION := Root("RuntimeException", "Runtime exception.")
  const NULL_POINTER_EXCEPTION := Sub("NullPointerException", "Null pointer.", RUNTIME_EXCEPTION)

  /** `a` is reached from `t` by following one or more supertype links. */
  predicate ProperAncestor(a: ExcType, t: ExcType)
    decreases t
  {
    t.Sub? && (t.super == a || ProperAncestor(a, t.super))
  }

  /** The test `E4C_IS_INSTANCE_OF`. */
  predicate IsInstance(t: ExcType, of: ExcType) {
    t == of || ProperAncestor(of, t)
  }

  /** `e4c_extends`: the loop along the supertype links. */
  method Extends(child: ExcType, parent: ExcType) returns (found: bool)
    ensures found <==> ProperAncestor(parent, child)
  {
    var c := child;
    while c.Sub?
      invariant ProperAncestor(parent, child) <==> ProperAncestor(parent, c)
      decreases c
    {
      if c.super == parent {
        return true;
      }
      c := c.super;
    }
    return false;
  }

  function Height(t: ExcType): nat {
    if t.Sub? then 1 + Height(t.super) else 0
  }

  lemma {:induction false} AncestorIsLower(a: ExcType, t: ExcType)
    requires ProperAncestor(a, t)
    ensures Height(a) < Height(t)
    decreases t
  {
    if t.super != a {
      AncestorIsLower(a, t.super);
    }
  }

  lemma {:induction false} AncestorTransitive(a: ExcType, b: ExcType, c: ExcType)
    requires ProperAncestor(a, b) && ProperAncestor(b, c)
    ensures ProperAncestor(a, c)
    decreases c
  {
    if c.super != b {
      AncestorTransitive(a, b, c.super);
    }
  }

  /** Catching by type is a partial order on exception types. */
  lemma InstanceIsPartialOrder(a: ExcType, b: ExcType, c: ExcType)
    ensures IsInstance(a, a)
    ensures IsInstance(a, b) && IsInstance(b, c) ==> IsInstance(a, c)
    ensures IsInstance(a, b) && IsInstance(b, a) ==> a == b
  {
    if ProperAncestor(b, a) && ProperAncestor(c, b) {
      AncestorTransitive(c, b, a);
    }
    if ProperAncestor(b, a) && ProperAncestor(a, b) {
      AncestorIsLower(b, a);
      AncestorIsLower(a, b);
    }
  }
}
