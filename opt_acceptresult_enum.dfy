/** `OptAcceptResultEnum` of pycmdparse/opt_acceptresult_enum.py: what one
    option does with the front of the token stack. */
module OptAcceptResultEnum {
  import opened Wrappers
  import opened Strings

  datatype OptAcceptResult = Accepted | Ignored | Error

  function ToStr(e: OptAcceptResult): (s: string)
    ensures Lower(s) == s
  {
    match e
    case Accepted => "accepted"
    case Ignored => "ignored"
    case Error => "error"
  }

  /** `fromstr`: `None` and the empty string (both falsy) give `None`, as do
      unknown names; the three names are matched without regard to case. */
  function FromStr(s: Option<string>): (r: Option<OptAcceptResult>)
    ensures (s.None? || s == Some("")) ==> r.None?
    ensures s.Some? ==> (r.Some? <==> Lower(s.value) in {"accepted", "ignored", "error"})
    ensures r.Some? ==> ToStr(r.value) == Lower(s.value)
  {
    match s
    case None => None
    case Some(t) =>
      if t == "" then None
      else if Lower(t) == "accepted" then Some(Accepted)
      else if Lower(t) == "ignored" then Some(Ignored)
      else if Lower(t) == "error" then Some(Error)
      else None
  }

  lemma RoundTrip(e: OptAcceptResult)
    ensures FromStr(Some(ToStr(e))) == Some(e)
  {
  }

  lemma ToStrInjective(e: OptAcceptResult, f: OptAcceptResult)
    ensures ToStr(e) == ToStr(f) ==> e == f
  {
  }
}
