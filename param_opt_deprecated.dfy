/** `ParamOptDEPRECATED` of pycmdparse/param_opt_deprecated.py. Its
    `_do_accept` is the same as `ParamOpt`'s (`ParamOpt.DoAccept`); what
    differs is that a stored default is converted when the option is built. */
module ParamOptDeprecated {
  import opened Wrappers
  import opened Strings
  import opened Coercion
  import opened AbstractOpt

  /** `_handle_data_type`: without a data type the value stays and the
      answer is True; with one, the value is replaced by its converted form,
      or the answer is False and nothing changes. */
  function HandleDataType(d: Descriptor, s: OptState): (r: (bool, OptState))
    ensures d.dataType.None? ==> r == (true, s)
    ensures d.dataType.Some? ==> (r.0 <==> Validate(d.dataType.value, s.value).Some?)
    ensures r.0 && d.dataType.Some? ==> r.1 == s.(value := Validate(d.dataType.value, s.value).value)
    ensures !r.0 ==> r.1 == s
  {
    if d.dataType.None? then (true, s)
    else
      match Validate(d.dataType.value, s.value)
      case None => (false, s)
      case Some(v) => (true, s.(value := v))
  }

  function MismatchMessage(v: Value): string {
    "Data type does not match specification: " + ValueText(v)
  }

  /** `ParamOptDEPRECATED.__init__`: the base initialisation; a stored
      default (only a required option stores one) must then convert to the
      data type, or construction raises. */
  function InitialState(d: Descriptor): (r: Result<OptState, string>)
    ensures r.Failure? <==> BaseState(d).value != VNone && !HandleDataType(d, BaseState(d)).0
    ensures r.Failure? ==> r.error == MismatchMessage(d.default)
    ensures r.Success? ==> r.value == HandleDataType(d, BaseState(d)).1
  {
    var b := BaseState(d);
    if b.value != VNone then
      var h := HandleDataType(d, b);
      if !h.0 then Failure(MismatchMessage(b.value)) else Success(h.1)
    else Success(b)
  }

  /** Only a required option with a default can fail to build; an option
      without a data type never does. */
  lemma OnlyStoredDefaultsFail(d: Descriptor)
    ensures !IsRequired(d) || d.default == VNone ==> InitialState(d) == Success(BaseState(d))
    ensures d.dataType.None? ==> InitialState(d) == Success(BaseState(d))
  {
  }

  /** A required integer option whose default is the text of an integer is
      built holding that integer. */
  lemma IntDefaultConverted(d: Descriptor, i: int)
    requires IsRequired(d) && d.default == VStr(IntToString(i)) && d.dataType == Some(Int)
    ensures InitialState(d) == Success(OptState(None, VInt(i), true))
  {
    ValidateIntText(i);
  }
}
