/** `BoolOpt` of pycmdparse/bool_opt.py: an option without a value whose
    presence on the command line turns it on. */
module BoolOpt {
  import opened Wrappers
  import opened Coercion
  import opened AbstractOpt

  /** `BoolOpt.__init__`: the default is always False and the data type
      BOOL, whatever the schema says. */
  function Make(name: Option<string>, shortKey: Option<string>, longKey: Option<string>, hint: Option<string>,
                required: Option<bool>, internal: Option<bool>, help: Option<string>): (d: Descriptor)
    ensures d.kind == Flag && d.default == VBool(false) && d.dataType == Some(Bool)
    ensures d.name == name && d.shortKey == shortKey && d.longKey == longKey && d.hint == hint
    ensures d.required == required && d.internal == internal && d.help == help
  {
    Descriptor(name, shortKey, longKey, hint, required, internal, VBool(false), Some(Bool), help, Flag)
  }

  /** The `value` property: False while nothing is stored. */
  function PublicValue(s: OptState): (v: Value)
    ensures s.value == VNone ==> v == VBool(false)
    ensures s.value != VNone ==> v == s.value
  {
    if s.value == VNone then VBool(false) else s.value
  }

  /** `BoolOpt._do_accept`: pops the key, records it and stores True. */
  function DoAccept(s: OptState, tokens: seq<string>): (r: AcceptStep)
    requires |tokens| > 0
    ensures r.reply == Accepted
    ensures r.tokens == tokens[1..]
    ensures r.state == s.(suppliedKey := Some(tokens[0]), value := VBool(true))
  {
    AcceptStep(Accepted, s.(suppliedKey := Some(tokens[0]), value := VBool(true)), tokens[1..])
  }

  /** A BoolOpt reads False until accepted and True after; the key is
      recorded, and a following value-like token stays on the stack. */
  lemma ValueFlips(d: Descriptor, key: string, next: seq<string>)
    requires d.kind == Flag && d.default == VBool(false)
    ensures PublicValue(BaseState(d)) == VBool(false)
    ensures PublicValue(DoAccept(BaseState(d), [key] + next).state) == VBool(true)
    ensures DoAccept(BaseState(d), [key] + next).tokens == next
  {
    assert ([key] + next)[1..] == next;
  }

  /** A required BoolOpt is initialized from the start, since its default
      False is not None; an optional one is not. */
  lemma RequiredIsInitialized(name: Option<string>, shortKey: Option<string>, longKey: Option<string>,
                              hint: Option<string>, required: Option<bool>, internal: Option<bool>,
                              help: Option<string>)
    ensures BaseState(Make(name, shortKey, longKey, hint, required, internal, help)).initialized
            <==> required == Some(true)
  {
  }
}
