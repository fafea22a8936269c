/** `OptFactory` of pycmdparse/opt_factory.py: building an option descriptor
    from the dictionary the schema gives for one option. */
module OptFactory {
  import opened Wrappers
  import opened Strings
  import opened Coercion
  import opened AbstractOpt
  import opened MultiTypeEnum
  import BoolOpt

  /** The entries of one option's dictionary; an absent entry is `None`.
      The `datatype` entry is held already converted to a data type. */
  datatype OptDict = OptDict(
    opt: Option<string>,
    name: Option<string>,
    short: Option<string>,
    long: Option<string>,
    hint: Option<string>,
    required: Option<bool>,
    internal: Option<bool>,
    default: Value,
    dataType: Option<DataType>,
    help: Option<string>,
    multiType: Option<string>,
    count: Option<int>)

  const BOOL := "bool"
  const PARAM := "param"

  /** `count` after defaulting: a missing count is 1 for EXACTLY and
      AT_MOST and stays missing for NO_LIMIT. */
  function DefaultCount(mt: MultiType, count: Option<int>): (c: Option<int>)
    ensures count.Some? ==> c == count
    ensures count.None? && !mt.NoLimit? ==> c == Some(1)
    ensures count.None? && mt.NoLimit? ==> c.None?
  {
    if count.None? && (mt.Exactly? || mt.AtMost?) then Some(1) else count
  }

  /** `_new_option`: a BoolOpt for "bool"; for "param", a multi-value
      option whose policy comes from `multi_type` (raising on an unknown
      name) and whose count is defaulted. */
  function NewOption(optType: string, dict: OptDict): (r: Result<Descriptor, string>)
    requires optType == BOOL || optType == PARAM
    ensures r.Success? ==>
              r.value.name == dict.name && r.value.shortKey == dict.short && r.value.longKey == dict.long &&
              r.value.hint == dict.hint && r.value.required == dict.required &&
              r.value.internal == dict.internal && r.value.help == dict.help
    ensures optType == BOOL ==>
              r.Success? && r.value.kind == Flag && r.value.default == VBool(false) && r.value.dataType == Some(Bool)
    ensures optType == PARAM ==> (r.Success? <==> FromStr(dict.multiType).Success?)
    ensures optType == PARAM && r.Failure? ==> r.error == FromStr(dict.multiType).error
    ensures optType == PARAM && r.Success? ==>
              r.value.kind == Multi(FromStr(dict.multiType).value, DefaultCount(FromStr(dict.multiType).value, dict.count))
              && r.value.default == dict.default && r.value.dataType == dict.dataType
  {
    if optType == BOOL then
      Success(BoolOpt.Make(dict.name, dict.short, dict.long, dict.hint, dict.required, dict.internal, dict.help))
    else
      match FromStr(dict.multiType)
      case Failure(e) => Failure(e)
      case Success(mt) =>
        Success(Descriptor(dict.name, dict.short, dict.long, dict.hint, dict.required, dict.internal,
                           dict.default, dict.dataType, dict.help, Multi(mt, DefaultCount(mt, dict.count))))
  }

  /** `create_option`: the `opt` entry must be exactly "bool" or "param". */
  function CreateOption(dict: OptDict): (r: Result<Descriptor, string>)
    ensures dict.opt != Some(BOOL) && dict.opt != Some(PARAM) ==>
              r == Failure("Unknown option type: " + OptText(dict.opt))
    ensures dict.opt == Some(BOOL) || dict.opt == Some(PARAM) ==> r == NewOption(dict.opt.value, dict)
  {
    if dict.opt == Some(BOOL) || dict.opt == Some(PARAM) then NewOption(dict.opt.value, dict)
    else Failure("Unknown option type: " + OptText(dict.opt))
  }

  /** A BoolOpt does not depend on the `default`, `datatype`, `multi_type`
      and `count` entries. */
  lemma BoolIgnoresValueEntries(dict: OptDict, default: Value, dataType: Option<DataType>,
                                multiType: Option<string>, count: Option<int>)
    requires dict.opt == Some(BOOL)
    ensures CreateOption(dict) == CreateOption(dict.(default := default, dataType := dataType,
                                                     multiType := multiType, count := count))
    ensures CreateOption(dict).Success? && CreateOption(dict).value.kind == Flag
  {
  }

  /** A param option without `multi_type` and `count` takes exactly one
      value. */
  lemma ParamDefaultsToOneValue(dict: OptDict)
    requires dict.opt == Some(PARAM) && dict.multiType.None? && dict.count.None?
    ensures CreateOption(dict).Success?
    ensures CreateOption(dict).value.kind == Multi(Exactly, Some(1))
  {
  }

  /** The `multi_type` entry is read without regard to case, and its name
      is the policy's canonical name. */
  lemma ParamPolicyFromName(dict: OptDict, m: MultiType)
    requires dict.opt == Some(PARAM) && dict.multiType.Some? && Lower(dict.multiType.value) == ToStr(m)
    ensures CreateOption(dict).Success? && CreateOption(dict).value.kind.multiType == m
  {
    ToStrInjective(FromStr(dict.multiType).value, m);
  }

  /** An unknown `multi_type` makes a param option raise, whatever the
      other entries are. */
  lemma UnknownPolicyRaises(dict: OptDict)
    requires dict.opt == Some(PARAM) && dict.multiType.Some?
    requires Lower(dict.multiType.value) !in {"exactly", "at-most", "no-limit"}
    ensures CreateOption(dict) == Failure("Unknown param type: " + dict.multiType.value)
  {
  }

  /** A built option's count is the given count when there is one, 1 when
      the policy is EXACTLY or AT_MOST, and missing otherwise; so a
      limited policy always has a count. */
  lemma CountAfterDefaulting(dict: OptDict)
    requires CreateOption(dict).Success? && CreateOption(dict).value.kind.Multi?
    ensures var k := CreateOption(dict).value.kind;
      (dict.count.Some? ==> k.count == dict.count) &&
      (k.multiType != NoLimit ==> k.count.Some?) &&
      (dict.count.None? && k.multiType == NoLimit ==> k.count.None?)
  {
  }
}
