/** The token stack of pycmdparse/stack.py: a Python list kept in reverse,
    so that the left-most token of the command line is on top and is popped
    first. */
module TokenStack {
  import opened Wrappers
  import opened Strings

  /** The list read from its last element to its first. */
  function Reverse(s: seq<string>): (r: seq<string>)
    ensures |r| == |s|
    ensures forall k :: 0 <= k < |s| ==> r[k] == s[|s| - 1 - k]
  {
    if s == [] then [] else [s[|s| - 1]] + Reverse(s[..|s| - 1])
  }

  /** Some remaining token starts with a dash. */
  predicate AnyOption(tokens: seq<string>) {
    exists k :: 0 <= k < |tokens| && StartsWith(tokens[k], "-")
  }

  class Stack {
    /** Bottom of the stack first, top of the stack last. */
    var items: seq<string>

    /** The tokens in command-line order: top of the stack first. */
    function Contents(): seq<string>
      reads this
    {
      Reverse(items)
    }

    /** `Stack(items)`: `None` gives the empty stack; otherwise the left-most
        item ends up on top. */
    constructor (initial: Option<seq<string>>)
      ensures Contents() == (if initial.Some? then initial.value else [])
    {
      items := [];
      new;
      if initial.Some? {
        var l := initial.value;
        var i := |l|;
        while i > 0
          invariant 0 <= i <= |l|
          invariant |items| == |l| - i
          invariant forall k :: 0 <= k < |items| ==> items[k] == l[|l| - 1 - k]
        {
          items := items + [l[i - 1]];
          i := i - 1;
        }
      }
    }

    method IsEmpty() returns (b: bool)
      ensures b <==> Contents() == []
    {
      b := items == [];
    }

    method Push(item: string)
      modifies this
      ensures Contents() == [item] + old(Contents())
    {
      items := items + [item];
    }

    /** Python raises IndexError on an empty list; every caller checks the
        size first. */
    method Pop() returns (item: string)
      requires Contents() != []
      modifies this
      ensures item == old(Contents())[0]
      ensures Contents() == old(Contents())[1..]
    {
      item := items[|items| - 1];
      items := items[..|items| - 1];
    }

    method Peek() returns (item: string)
      requires Contents() != []
      ensures item == Contents()[0]
    {
      item := items[|items| - 1];
    }

    method Size() returns (n: nat)
      ensures n == |Contents()|
    {
      n := |items|;
    }

    /** Drains the stack, returning what it held in command-line order. */
    method PopAll() returns (drained: seq<string>)
      modifies this
      ensures drained == old(Contents())
      ensures Contents() == []
    {
      drained := [];
      ghost var all := Contents();
      var n := Size();
      while n > 0
        invariant n == |Contents()| && |drained| + n == |all|
        invariant drained == all[..|drained|] && Contents() == all[|drained|..]
        decreases n
      {
        var item := Pop();
        assert all[..|drained| + 1] == all[..|drained|] + [item];
        drained := drained + [item];
        n := Size();
      }
      assert all[..|all|] == all;
    }

    /** Whether any remaining token starts with a dash. */
    method HasOptions() returns (b: bool)
      ensures b <==> AnyOption(Contents())
    {
      var remaining: seq<string> := [];
      var i := 0;
      while i < |items|
        invariant 0 <= i <= |items|
        invariant forall k :: 0 <= k < |remaining| ==> StartsWith(remaining[k], "-")
        invariant (|remaining| == 0) <==> (forall k :: 0 <= k < i ==> !StartsWith(items[k], "-"))
      {
        if StartsWith(items[i], "-") {
          remaining := remaining + [items[i]];
        }
        i := i + 1;
      }
      b := |remaining| != 0;
      if b {
        var k :| 0 <= k < |items| && StartsWith(items[k], "-");
        assert Contents()[|items| - 1 - k] == items[k];
      } else {
        forall k | 0 <= k < |items| ensures !StartsWith(Contents()[k], "-") {
          assert Contents()[k] == items[|items| - 1 - k];
        }
      }
    }
  }

  /** Pushing a token and popping it again hands back that token and the
      stack as it was. */
  method PushThenPop(s: Stack, x: string) returns (y: string)
    modifies s
    ensures y == x && s.Contents() == old(s.Contents())
  {
    s.Push(x);
    var top := s.Peek();
    assert top == x;
    y := s.Pop();
  }
}
