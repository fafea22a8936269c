/** `ParamOpt` of pycmdparse/param_opt.py: an option taking exactly one
    value, optionally coerced to a data type. `ParamOptDEPRECATED` has the
    same `_do_accept`. */
module ParamOpt {
  import opened Wrappers
  import opened Strings
  import opened Coercion
  import opened AbstractOpt

  /** The ERROR message when no value follows the key. The source formats
      the recorded key, which is still None whenever `accept` gets here. */
  function MissingValueMessage(suppliedKey: Option<string>): string {
    OptText(suppliedKey) + ": requires a value, which was not supplied"
  }

  /** The ERROR message when a value does not convert to the data type. */
  function BadTypeMessage(key: string, raw: Value, t: DataType): string {
    key + ": " + ValueText(raw) + " has incorrect data type. Expected " + DataTypeName(t)
  }

  /** `ParamOpt._do_accept`: with fewer than two tokens an ERROR and no
      change; otherwise the key and the value token are popped and stored,
      the value is converted when a data type is set, and `initialized` is
      set only when that succeeds. */
  function DoAccept(d: Descriptor, s: OptState, tokens: seq<string>): (r: AcceptStep)
    ensures |tokens| < 2 ==> r == AcceptStep(Error(MissingValueMessage(s.suppliedKey)), s, tokens)
    ensures |tokens| >= 2 ==> r.tokens == tokens[2..] && r.state.suppliedKey == Some(tokens[0])
    ensures |tokens| >= 2 && d.dataType.None? ==>
              r.reply == Accepted && r.state == OptState(Some(tokens[0]), VStr(tokens[1]), true)
    ensures |tokens| >= 2 && d.dataType.Some? ==>
              match Validate(d.dataType.value, VStr(tokens[1]))
              case Some(v) => r.reply == Accepted && r.state == OptState(Some(tokens[0]), v, true)
              case None =>
                r.reply == Error(BadTypeMessage(tokens[0], VStr(tokens[1]), d.dataType.value)) &&
                r.state == OptState(Some(tokens[0]), VStr(tokens[1]), s.initialized)
  {
    if |tokens| < 2 then AcceptStep(Error(MissingValueMessage(s.suppliedKey)), s, tokens)
    else
      var s1 := s.(suppliedKey := Some(tokens[0]), value := VStr(tokens[1]));
      if d.dataType.None? then AcceptStep(Accepted, s1.(initialized := true), tokens[2..])
      else
        match Validate(d.dataType.value, VStr(tokens[1]))
        case None => AcceptStep(Error(BadTypeMessage(tokens[0], VStr(tokens[1]), d.dataType.value)), s1, tokens[2..])
        case Some(v) => AcceptStep(Accepted, s1.(value := v, initialized := true), tokens[2..])
  }

  /** The value taken is the next token whatever it looks like, even `--`
      or another option's key. */
  lemma TakesDashValue(d: Descriptor, s: OptState, key: string, rest: seq<string>)
    requires d.dataType.None?
    ensures DoAccept(d, s, [key, "--"] + rest) == AcceptStep(Accepted, OptState(Some(key), VStr("--"), true), rest)
  {
    assert ([key, "--"] + rest)[2..] == rest;
  }

  /** An integer-typed option stores the integer its token denotes. */
  lemma IntValue(d: Descriptor, s: OptState, key: string, i: int)
    requires d.dataType == Some(Int)
    ensures DoAccept(d, s, [key, IntToString(i)]).state.value == VInt(i)
    ensures DoAccept(d, s, [key, IntToString(i)]).reply == Accepted
  {
    ValidateIntText(i);
  }

  /** A BOOL data type never converts, so such an option always fails once
      it has its value, and stays uninitialized. */
  lemma BoolTypeAlwaysFails(d: Descriptor, s: OptState, tokens: seq<string>)
    requires d.dataType == Some(Bool) && |tokens| >= 2
    ensures DoAccept(d, s, tokens).reply.Error?
    ensures DoAccept(d, s, tokens).state.initialized == s.initialized
  {
  }
}
