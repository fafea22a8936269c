/** `MultiTypeEnum` of pycmdparse/multitype_enum.py: the capture policy of a
    multi-value option. */
module MultiTypeEnum {
  import opened Wrappers
  import opened Strings

  datatype MultiType = Exactly | AtMost | NoLimit

  function ToStr(m: MultiType): (s: string)
    ensures Lower(s) == s
  {
    match m
    case Exactly => "exactly"
    case AtMost => "at-most"
    case NoLimit => "no-limit"
  }

  /** `fromstr`: `None` means EXACTLY; the three names are matched without
      regard to case; anything else raises "Unknown param type: X". */
  function FromStr(s: Option<string>): (r: Result<MultiType, string>)
    ensures s.None? ==> r == Success(Exactly)
    ensures s.Some? ==> (r.Success? <==> Lower(s.value) in {"exactly", "at-most", "no-limit"})
    ensures s.Some? && r.Success? ==> ToStr(r.value) == Lower(s.value)
    ensures r.Failure? ==> r.error == "Unknown param type: " + s.value
  {
    match s
    case None => Success(Exactly)
    case Some(t) =>
      if Lower(t) == "exactly" then Success(Exactly)
      else if Lower(t) == "at-most" then Success(AtMost)
      else if Lower(t) == "no-limit" then Success(NoLimit)
      else Failure("Unknown param type: " + t)
  }

  lemma RoundTrip(m: MultiType)
    ensures FromStr(Some(ToStr(m))) == Success(m)
  {
  }

  lemma ToStrInjective(m: MultiType, n: MultiType)
    ensures ToStr(m) == ToStr(n) ==> m == n
  {
  }
}
