/** The data and the shared logic of pycmdparse/abstract_opt.py: what an
    option is, the state an option instance keeps, how a token is
    recognised as one of its keys, and how its keys are shown. */
module AbstractOpt {
  import opened Wrappers
  import opened Strings
  import opened Coercion
  import MultiTypeEnum

  /** Which subclass of `AbstractOpt` an instance is. `Multi` carries the
      `multi_type` and `count` of a `MultiParamOpt`. */
  datatype Kind =
    | Flag                                                    // BoolOpt
    | Single                                                  // ParamOpt
    | Deprecated                                              // ParamOptDEPRECATED
    | Multi(multiType: MultiTypeEnum.MultiType, count: Option<int>)  // MultiParamOpt

  /** The constructor arguments of an option: fixed once built. */
  datatype Descriptor = Descriptor(
    name: Option<string>,
    shortKey: Option<string>,
    longKey: Option<string>,
    hint: Option<string>,
    required: Option<bool>,
    internal: Option<bool>,
    default: Value,
    dataType: Option<DataType>,
    help: Option<string>,
    kind: Kind)

  /** The fields an option updates while parsing: `_supplied_key`,
      `_value` and `_initialized`. */
  datatype OptState = OptState(suppliedKey: Option<string>, value: Value, initialized: bool)

  /** The first element of the tuple `accept` returns, with the message of
      an ERROR. */
  datatype Reply = Ignored | Accepted | Error(message: string)

  /** What one call of `accept` or `_do_accept` does: its reply, the new
      option state and the tokens left on the stack (top first). */
  datatype AcceptStep = AcceptStep(reply: Reply, state: OptState, tokens: seq<string>)

  /** Python truthiness of the `required` entry. */
  predicate IsRequired(d: Descriptor) {
    d.required == Some(true)
  }

  /** `AbstractOpt.__init__`: a default is stored, and the option counts as
      initialized, only when the option is required and the default is not
      `None`. */
  function BaseState(d: Descriptor): (s: OptState)
    ensures s.suppliedKey.None?
    ensures s.initialized <==> IsRequired(d) && d.default != VNone
    ensures s.initialized ==> s.value == d.default
    ensures !s.initialized ==> s.value == VNone
  {
    if IsRequired(d) && d.default != VNone then OptState(None, d.default, true)
    else OptState(None, VNone, false)
  }

  /** `re.compile("-{1,2}\\w").match(token)`: one or two dashes followed by a
      word character (ASCII letters, digits and `_`). */
  predicate LooksLikeOption(t: string) {
    (|t| >= 2 && t[0] == '-' && IsWordChar(t[1])) ||
    (|t| >= 3 && t[0] == '-' && t[1] == '-' && IsWordChar(t[2]))
  }

  /** `token.lstrip("-") in [short_key, long_key]`. */
  predicate Matches(d: Descriptor, t: string) {
    Some(LStripDashes(t)) == d.shortKey || Some(LStripDashes(t)) == d.longKey
  }

  /** The key forms an option has, short first: `-s` and `--long`. */
  function KeyForms(d: Descriptor): (r: seq<string>)
    ensures |r| <= 2
  {
    (if d.shortKey.Some? then ["-" + d.shortKey.value] else [])
    + (if d.longKey.Some? then ["--" + d.longKey.value] else [])
  }

  /** `xs` joined with `sep` between neighbours. */
  function Join(sep: string, xs: seq<string>): (r: string)
    ensures |xs| == 1 ==> r == xs[0]
  {
    if xs == [] then "" else if |xs| == 1 then xs[0] else xs[0] + sep + Join(sep, xs[1..])
  }

  /** The `option_keys` property: `-s`, then `/` and `--long` when a long
      key exists, the separator only between two keys. */
  function OptionKeys(d: Descriptor): (r: string)
    ensures r == Join("/", KeyForms(d))
  {
    var withShort := if d.shortKey.Some? then "-" + d.shortKey.value else "";
    if d.longKey.Some? then withShort + (if |withShort| > 0 then "/" else "") + "--" + d.longKey.value
    else withShort
  }

  /** The `keys_and_hint` property: the key forms joined by `, `, then
      ` <hint>` when a hint exists. */
  function KeysAndHint(d: Descriptor): (r: string)
    ensures r == Join(", ", KeyForms(d)) + (if d.hint.Some? then " <" + d.hint.value + ">" else "")
  {
    var s := if d.shortKey.Some? then "-" + d.shortKey.value else "";
    var s' := if d.longKey.Some? then s + (if |s| == 0 then "" else ", ") + "--" + d.longKey.value else s;
    if d.hint.Some? then s' + " <" + d.hint.value + ">" else s'
  }

  /** A token matching either key form of an option passes the shape test
      exactly when the key starts with a word character, and it matches
      the option whatever the number of dashes. */
  lemma KeyFormsMatch(d: Descriptor, k: string)
    requires |k| > 0 && k[0] != '-'
    requires d.shortKey == Some(k) || d.longKey == Some(k)
    ensures Matches(d, "-" + k) && Matches(d, "--" + k)
    ensures LooksLikeOption("-" + k) <==> IsWordChar(k[0])
    ensures LooksLikeOption("--" + k) <==> IsWordChar(k[0])
  {
    assert ("-" + k)[1..] == k;
    assert ("--" + k)[1..] == "-" + k;
  }

  /** Three dashes, a lone dash and plain words never look like options. */
  lemma NotOptionShaped(k: string)
    ensures !LooksLikeOption("---" + k)
    ensures !LooksLikeOption("-")
    ensures |k| > 0 && k[0] != '-' ==> !LooksLikeOption(k)
  {
  }
}
