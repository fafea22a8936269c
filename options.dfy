/** An option instance: the fields of pycmdparse/abstract_opt.py that the
    parse updates, `accept` with its dispatch to the `_do_accept` of each
    subclass, and the constructors of the four subclasses. */
module Options {
  import opened Wrappers
  import opened Strings
  import opened Coercion
  import opened AbstractOpt
  import opened MultiTypeEnum
  import opened TokenStack
  import BoolOpt
  import ParamOpt
  import MultiParamOpt
  import ParamOptDeprecated

  /** The state a freshly built option of each kind has, or the exception
      its constructor raises. */
  function InitialState(d: Descriptor): (r: Result<OptState, string>)
    ensures r.Failure? ==> d.kind == Deprecated
    ensures r.Success? ==> r.value.suppliedKey.None?
    ensures r.Success? && d.kind.Multi? ==> r.value.value == VList([])
    ensures r.Success? && (d.kind == Flag || d.kind == Single) ==> r.value == BaseState(d)
  {
    match d.kind
    case Flag => Success(BaseState(d))
    case Single => Success(BaseState(d))
    case Deprecated => ParamOptDeprecated.InitialState(d)
    case Multi(_, _) => Success(MultiParamOpt.InitialState(d))
  }

  /** The `value` property of each kind. */
  function PublicValue(d: Descriptor, s: OptState): (v: Value)
    ensures d.kind == Flag && s.value == VNone ==> v == VBool(false)
    ensures d.kind != Flag || s.value != VNone ==> v == s.value
  {
    if d.kind == Flag then BoolOpt.PublicValue(s) else s.value
  }

  /** `a` is what is left of `b` after popping some tokens. */
  predicate IsSuffix(a: seq<string>, b: seq<string>) {
    |a| <= |b| && a == b[|b| - |a|..]
  }

  /** `_do_accept` of the subclass the option belongs to. */
  function DoAcceptSpec(d: Descriptor, s: OptState, tokens: seq<string>): (r: AcceptStep)
    requires |tokens| > 0
    ensures r.reply != Ignored
    ensures IsSuffix(r.tokens, tokens)
    ensures r.reply.Accepted? ==> |r.tokens| < |tokens| && r.state.suppliedKey == Some(tokens[0])
  {
    match d.kind
    case Flag => BoolOpt.DoAccept(s, tokens)
    case Single => ParamOpt.DoAccept(d, s, tokens)
    case Deprecated => ParamOpt.DoAccept(d, s, tokens)
    case Multi(mt, count) =>
      var r := MultiParamOpt.DoAccept(d, mt, count, s, tokens);
      assert |tokens| >= 2 ==> r.tokens == tokens[1 + MultiParamOpt.Taken(mt, count, |MultiParamOpt.Items(s.value)|, tokens[1..])..];
      r
  }

  function DuplicateMessage(t: string): string {
    "Duplicate option specified on the command line: " + t
  }

  /** `AbstractOpt.accept` on the stack contents `tokens` (top first). */
  function AcceptSpec(d: Descriptor, s: OptState, tokens: seq<string>): (r: AcceptStep)
    ensures r.reply == Ignored <==> |tokens| == 0 || !LooksLikeOption(tokens[0]) || !Matches(d, tokens[0])
    ensures r.reply == Ignored ==> r.state == s && r.tokens == tokens
    ensures |tokens| > 0 && LooksLikeOption(tokens[0]) && Matches(d, tokens[0]) && s.suppliedKey.Some? ==>
              r == AcceptStep(Error(DuplicateMessage(tokens[0])), s, tokens)
    ensures IsSuffix(r.tokens, tokens)
    ensures r.reply.Accepted? ==> |r.tokens| < |tokens| && r.state.suppliedKey == Some(tokens[0])
  {
    if |tokens| == 0 then AcceptStep(Ignored, s, tokens)
    else if !LooksLikeOption(tokens[0]) then AcceptStep(Ignored, s, tokens)
    else if Matches(d, tokens[0]) then
      if s.suppliedKey.Some? then AcceptStep(Error(DuplicateMessage(tokens[0])), s, tokens)
      else DoAcceptSpec(d, s, tokens)
    else AcceptStep(Ignored, s, tokens)
  }

  /** A BoolOpt descriptor has the default its constructor gives it. */
  predicate WellFormed(d: Descriptor) {
    d.kind == Flag ==> d.default == VBool(false)
  }

  /** What holds of an option's state throughout a parse: a BoolOpt holds
      nothing or a boolean; a MultiParamOpt holds a list, no longer than
      `count` for EXACTLY and AT_MOST. */
  predicate Coherent(d: Descriptor, s: OptState) {
    (d.kind == Flag ==> s.value == VNone || s.value.VBool?) &&
    (d.kind.Multi? ==>
       s.value.VList? &&
       (MultiParamOpt.Limited(d.kind.multiType, d.kind.count) ==> |s.value.items| <= d.kind.count.value))
  }

  lemma InitialCoherent(d: Descriptor)
    requires WellFormed(d) && InitialState(d).Success?
    ensures Coherent(d, InitialState(d).value)
  {
  }

  lemma AcceptPreservesCoherent(d: Descriptor, s: OptState, tokens: seq<string>)
    requires Coherent(d, s)
    ensures Coherent(d, AcceptSpec(d, s, tokens).state)
  {
    if d.kind.Multi? && MultiParamOpt.Limited(d.kind.multiType, d.kind.count) {
      MultiParamOpt.ValueBounded(d, d.kind.multiType, d.kind.count, s, tokens);
    }
  }

  /** Once accepted, an option rejects a second occurrence of its key, in
      either dash form, and leaves the stack alone. */
  lemma SecondOccurrenceRejected(d: Descriptor, s: OptState, tokens: seq<string>, again: seq<string>)
    requires AcceptSpec(d, s, tokens).reply == Accepted
    requires |again| > 0 && LooksLikeOption(again[0]) && Matches(d, again[0])
    ensures AcceptSpec(d, AcceptSpec(d, s, tokens).state, again)
            == AcceptStep(Error(DuplicateMessage(again[0])), AcceptSpec(d, s, tokens).state, again)
  {
  }

  /** An instance of one of the four option classes. */
  class Opt {
    const desc: Descriptor
    var suppliedKey: Option<string>
    var value: Value
    var initialized: bool

    function State(): OptState
      reads this
    {
      OptState(suppliedKey, value, initialized)
    }

    /** `AbstractOpt.__init__` and, for a MultiParamOpt, the reset of the
        value to an empty list. */
    constructor(d: Descriptor)
      ensures desc == d
      ensures State() == (if d.kind.Multi? then MultiParamOpt.InitialState(d) else BaseState(d))
    {
      desc := d;
      if IsRequired(d) && d.default != VNone {
        initialized := true;
        value := d.default;
      } else {
        initialized := false;
        value := VNone;
      }
      suppliedKey := None;
      if d.kind.Multi? {
        value := VList([]);
      }
    }

    /** Building an option of any kind; a ParamOptDEPRECATED with a stored
        default then converts it, raising when that fails. */
    static method Create(d: Descriptor) returns (r: Result<Opt, string>)
      ensures r.Failure? ==> InitialState(d) == Failure(r.error)
      ensures r.Success? ==> fresh(r.value) && r.value.desc == d && InitialState(d) == Success(r.value.State())
    {
      var o := new Opt(d);
      if d.kind == Deprecated && o.value != VNone {
        var ok := o.HandleDataType();
        if !ok {
          return Failure(ParamOptDeprecated.MismatchMessage(o.value));
        }
      }
      return Success(o);
    }

    /** `ParamOptDEPRECATED._handle_data_type`. */
    method HandleDataType() returns (ok: bool)
      modifies this
      ensures (ok, State()) == ParamOptDeprecated.HandleDataType(desc, old(State()))
    {
      if desc.dataType.Some? {
        var tmp := Validate(desc.dataType.value, value);
        if tmp.None? {
          return false;
        }
        value := tmp.value;
      }
      return true;
    }

    /** `AbstractOpt.accept`. */
    method Accept(stack: Stack) returns (reply: Reply)
      modifies this, stack
      ensures AcceptStep(reply, State(), stack.Contents()) == AcceptSpec(desc, old(State()), old(stack.Contents()))
    {
      var n := stack.Size();
      if n == 0 {
        return Ignored;
      }
      var top := stack.Peek();
      if !LooksLikeOption(top) {
        return Ignored;
      }
      if Matches(desc, top) {
        if suppliedKey.Some? {
          return Error(DuplicateMessage(top));
        }
        match desc.kind {
          case Flag => reply := DoAcceptBool(stack);
          case Single => reply := DoAcceptParam(stack);
          case Deprecated => reply := DoAcceptParam(stack);
          case Multi(_, _) => reply := DoAcceptMulti(stack);
        }
        return;
      }
      return Ignored;
    }

    /** `BoolOpt._do_accept`. */
    method DoAcceptBool(stack: Stack) returns (reply: Reply)
      requires stack.Contents() != []
      modifies this, stack
      ensures AcceptStep(reply, State(), stack.Contents()) == BoolOpt.DoAccept(old(State()), old(stack.Contents()))
    {
      var key := stack.Pop();
      suppliedKey := Some(key);
      value := VBool(true);
      return Accepted;
    }

    /** `ParamOpt._do_accept` (and `ParamOptDEPRECATED._do_accept`). */
    method DoAcceptParam(stack: Stack) returns (reply: Reply)
      modifies this, stack
      ensures AcceptStep(reply, State(), stack.Contents()) == ParamOpt.DoAccept(desc, old(State()), old(stack.Contents()))
    {
      var n := stack.Size();
      if n < 2 {
        return Error(ParamOpt.MissingValueMessage(suppliedKey));
      }
      var key := stack.Pop();
      suppliedKey := Some(key);
      var raw := stack.Pop();
      value := VStr(raw);
      if desc.dataType.Some? {
        var tmp := Validate(desc.dataType.value, value);
        if tmp.None? {
          return Error(ParamOpt.BadTypeMessage(key, value, desc.dataType.value));
        }
        value := tmp.value;
      }
      initialized := true;
      return Accepted;
    }

    /** The capture loop of `MultiParamOpt._do_accept`: pops tokens and
        appends them to the list held in `_value`. */
    method CaptureValues(stack: Stack)
      requires desc.kind.Multi?
      modifies this`value, stack
      ensures var n := MultiParamOpt.Taken(desc.kind.multiType, desc.kind.count,
                                           |MultiParamOpt.Items(old(value))|, old(stack.Contents()));
              value == VList(MultiParamOpt.Items(old(value)) + MultiParamOpt.Wrap(old(stack.Contents())[..n])) &&
              stack.Contents() == old(stack.Contents())[n..]
    {
      var mt, count := desc.kind.multiType, desc.kind.count;
      ghost var t := stack.Contents();
      var items := MultiParamOpt.Items(value);
      ghost var start := items;
      ghost var n := MultiParamOpt.Taken(mt, count, |start|, t);
      ghost var i := 0;
      value := VList(items);
      var size := stack.Size();
      while size > 0
        invariant i <= n && stack.Contents() == t[i..] && size == |t| - i
        invariant items == start + MultiParamOpt.Wrap(t[..i]) && |items| == |start| + i
        invariant value == VList(items)
        decreases size
      {
        var top := stack.Peek();
        assert top == t[i];
        MultiParamOpt.TakenCut(mt, count, |start|, t, i);
        if StartsWith(top, "-") && mt != Exactly {
          break;
        }
        if (mt == AtMost || mt == Exactly) && count == Some(|items|) {
          break;
        }
        var x := stack.Pop();
        MultiParamOpt.AppendStep(start, t, i);
        items := items + [VStr(x)];
        value := VList(items);
        size := size - 1;
        i := i + 1;
      }
    }

    /** The data-type loop of `MultiParamOpt._do_accept`: converts the held
        values in place and answers the index of the first that fails. */
    method ConvertValues() returns (bad: Option<nat>)
      requires desc.dataType.Some? && value.VList?
      modifies this`value
      ensures match MultiParamOpt.Coerce(MultiParamOpt.Converter(desc.dataType.value), old(value).items, 0)
              case AllCoerced(ys) => bad.None? && value == VList(ys)
              case BadValue(j, ys) => bad == Some(j) && value == VList(ys)
    {
      var dt := desc.dataType.value;
      var items := value.items;
      ghost var captured := items;
      ghost var conv := MultiParamOpt.Converter(dt);
      var i := 0;
      while i < |items|
        invariant 0 <= i <= |items| == |captured|
        invariant MultiParamOpt.Coerce(conv, items, i) == MultiParamOpt.Coerce(conv, captured, 0)
        invariant value == VList(items)
      {
        var tmp := Validate(dt, items[i]);
        if tmp.None? {
          return Some(i);
        }
        items := items[i := tmp.value];
        value := VList(items);
        i := i + 1;
      }
      return None;
    }

    /** The count check and the conversion at the end of
        `MultiParamOpt._do_accept`; `rest` is what the stack holds. */
    method Settle(ghost rest: seq<string>) returns (reply: Reply)
      requires desc.kind.Multi? && suppliedKey.Some? && value.VList?
      modifies this
      ensures AcceptStep(reply, State(), rest)
              == MultiParamOpt.Settle(desc, desc.kind.multiType, desc.kind.count, old(State()), rest)
    {
      var count := desc.kind.count;
      if desc.kind.multiType == Exactly && count != Some(|value.items|) {
        return Error(MultiParamOpt.CountMessage(suppliedKey.value, count, |value.items|));
      }
      if desc.dataType.Some? {
        var captured := value.items;
        var bad := ConvertValues();
        if bad.Some? {
          return Error(ParamOpt.BadTypeMessage(suppliedKey.value, captured[bad.value], desc.dataType.value));
        }
      }
      initialized := true;
      return Accepted;
    }

    /** `MultiParamOpt._do_accept`. */
    method DoAcceptMulti(stack: Stack) returns (reply: Reply)
      requires desc.kind.Multi?
      modifies this, stack
      ensures AcceptStep(reply, State(), stack.Contents())
              == MultiParamOpt.DoAccept(desc, desc.kind.multiType, desc.kind.count, old(State()), old(stack.Contents()))
    {
      var n := stack.Size();
      if n < 2 {
        return Error(ParamOpt.MissingValueMessage(suppliedKey));
      }
      ghost var s0, t0 := State(), stack.Contents();
      ghost var held := MultiParamOpt.Items(value);
      ghost var k := MultiParamOpt.Taken(desc.kind.multiType, desc.kind.count, |held|, t0[1..]);
      var key := stack.Pop();
      suppliedKey := Some(key);
      CaptureValues(stack);
      ghost var mid, rest := State(), stack.Contents();
      assert mid == s0.(suppliedKey := Some(t0[0]), value := VList(held + MultiParamOpt.Wrap(t0[1..][..k])));
      assert t0[1..][..k] == t0[1..1 + k] && t0[1..][k..] == t0[1 + k..];
      reply := Settle(rest);
      MultiParamOpt.DoAcceptSettles(desc, desc.kind.multiType, desc.kind.count, s0, t0);
    }
  }
}
