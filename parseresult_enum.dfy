/** `ParseResultEnum` of pycmdparse/parseresult_enum.py: the outcome of
    parsing a whole command line. */
module ParseResultEnum {
  import opened Wrappers
  import opened Strings

  datatype ParseResult = Success | ParseError | ShowUsage | MissingMandatoryArg

  function ToStr(r: ParseResult): (s: string)
    ensures Lower(s) == s
  {
    match r
    case Success => "success"
    case ParseError => "parse-error"
    case ShowUsage => "show-usage"
    case MissingMandatoryArg => "missing-mandatory"
  }

  /** `fromstr`: `None` and unknown names give `None`, never an exception;
      the four names are matched without regard to case. */
  function FromStr(s: Option<string>): (r: Option<ParseResult>)
    ensures s.None? ==> r.None?
    ensures s.Some? ==> (r.Some? <==> Lower(s.value) in {"success", "parse-error", "show-usage", "missing-mandatory"})
    ensures r.Some? ==> ToStr(r.value) == Lower(s.value)
  {
    match s
    case None => None
    case Some(t) =>
      if Lower(t) == "success" then Some(ParseResult.Success)
      else if Lower(t) == "parse-error" then Some(ParseError)
      else if Lower(t) == "show-usage" then Some(ShowUsage)
      else if Lower(t) == "missing-mandatory" then Some(MissingMandatoryArg)
      else None
  }

  lemma RoundTrip(r: ParseResult)
    ensures FromStr(Some(ToStr(r))) == Some(r)
  {
  }

  lemma ToStrInjective(r: ParseResult, q: ParseResult)
    ensures ToStr(r) == ToStr(q) ==> r == q
  {
  }
}
