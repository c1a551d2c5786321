/** The two bounded LIFO stacks of the program: the operator stack of the
    infix-to-RPN converter (TokenStack) and the operand stack of the RPN
    evaluator (DoubleStack). Each is a fixed array of StackSize slots and an
    index `top` of the topmost occupied slot, -1 when the stack is empty. */
module Stacks {
  import opened Tokens

  class TokenStack {
    var items: array<Token>
    var top: int

    ghost predicate Valid()
      reads this
    {
      items.Length == StackSize && -1 <= top < StackSize
    }

    /** The stacked tokens, bottom first; the last element is the top. */
    ghost function Contents(): (s: seq<Token>)
      reads this, items
      requires Valid()
      ensures |s| == top + 1
    {
      items[..top + 1]
    }

    /** init_stack: an empty stack. */
    constructor ()
      ensures Valid() && fresh(items)
      ensures Contents() == []
    {
      items := new Token[StackSize](_ => End);
      top := -1;
    }

    method IsEmpty() returns (b: bool)
      requires Valid()
      ensures b <==> Contents() == []
    {
      b := top == -1;
    }

    /** push: refuses (false, nothing changed) when all StackSize slots are
        taken; otherwise the token lands in the slot above the old top. */
    method Push(t: Token) returns (ok: bool)
      requires Valid()
      modifies this`top, items
      ensures Valid()
      ensures ok <==> |old(Contents())| < StackSize
      ensures ok ==> Contents() == old(Contents()) + [t] && items[top] == t
      ensures !ok ==> top == old(top) && items[top] == old(items[top]) && Contents() == old(Contents())
      ensures forall k | 0 <= k < StackSize && k != top :: items[k] == old(items[k])
    {
      if top >= StackSize - 1 {
        return false;
      }
      top := top + 1;
      items[top] := t;
      ok := true;
    }

    /** pop: the End sentinel on an empty stack, which stays empty; otherwise
        the top token, removed. */
    method Pop() returns (t: Token)
      requires Valid()
      modifies this`top
      ensures Valid()
      ensures old(Contents()) == [] ==> t == End && top == old(top)
      ensures old(Contents()) != [] ==>
                top == old(top) - 1 && old(Contents()) == Contents() + [t]
    {
      if top == -1 {
        return End;
      }
      t := items[top];
      top := top - 1;
    }

    /** peek: the top token without removing it, End on an empty stack. */
    method Peek() returns (t: Token)
      requires Valid()
      ensures t == if Contents() == [] then End else Contents()[|Contents()| - 1]
    {
      if top == -1 {
        return End;
      }
      t := items[top];
    }
  }

  class DoubleStack {
    var items: array<real>
    var top: int

    ghost predicate Valid()
      reads this
    {
      items.Length == StackSize && -1 <= top < StackSize
    }

    /** The stacked values, bottom first; the last element is the top. */
    ghost function Contents(): (s: seq<real>)
      reads this, items
      requires Valid()
      ensures |s| == top + 1
    {
      items[..top + 1]
    }

    /** init_double_stack: an empty stack. */
    constructor ()
      ensures Valid() && fresh(items)
      ensures Contents() == []
    {
      items := new real[StackSize];
      top := -1;
    }

    method IsEmpty() returns (b: bool)
      requires Valid()
      ensures b <==> Contents() == []
    {
      b := top == -1;
    }

    /** push_double: false and no change when full, else the value goes on top. */
    method Push(v: real) returns (ok: bool)
      requires Valid()
      modifies this`top, items
      ensures Valid()
      ensures ok <==> |old(Contents())| < StackSize
      ensures ok ==> Contents() == old(Contents()) + [v] && items[top] == v
      ensures !ok ==> top == old(top) && items[top] == old(items[top]) && Contents() == old(Contents())
      ensures forall k | 0 <= k < StackSize && k != top :: items[k] == old(items[k])
    {
      if top >= StackSize - 1 {
        return false;
      }
      top := top + 1;
      items[top] := v;
      ok := true;
    }

    /** pop_double: None (the C code's NaN) on an empty stack, else the top
        value, removed. */
    method Pop() returns (v: Option<real>)
      requires Valid()
      modifies this`top
      ensures Valid()
      ensures old(Contents()) == [] ==> v == None && top == old(top)
      ensures old(Contents()) != [] ==>
                v.Some? && top == old(top) - 1 && old(Contents()) == Contents() + [v.value]
    {
      if top == -1 {
        return None;
      }
      v := Some(items[top]);
      top := top - 1;
    }
  }
}
