/** `MultiParamOpt` of pycmdparse/multiparam_opt.py: an option capturing a
    list of values under one of three policies (EXACTLY, AT_MOST or
    NO_LIMIT), each value optionally coerced to a data type. */
module MultiParamOpt {
  import opened Wrappers
  import opened Strings
  import opened Coercion
  import opened AbstractOpt
  import opened MultiTypeEnum
  import ParamOpt

  /** The list held in `_value`; anything else holds no items. */
  function Items(v: Value): seq<Value> {
    if v.VList? then v.items else []
  }

  /** Raw tokens as the values the capture loop appends. */
  function Wrap(ts: seq<string>): (r: seq<Value>)
    ensures |r| == |ts|
  {
    seq(|ts|, k requires 0 <= k < |ts| => VStr(ts[k]))
  }

  /** `MultiParamOpt.__init__`: the base initialisation, after which the
      value is replaced by an empty list. A stored default is lost, but a
      required option with a default still counts as initialized. */
  function InitialState(d: Descriptor): (s: OptState)
    ensures s.suppliedKey.None? && s.value == VList([])
    ensures s.initialized <==> IsRequired(d) && d.default != VNone
  {
    BaseState(d).(value := VList([]))
  }

  /** A count the EXACTLY and AT_MOST loops can reach. */
  predicate Limited(mt: MultiType, count: Option<int>) {
    mt != NoLimit && count.Some? && count.value >= 0
  }

  /** The capture loop of `_do_accept` over the tokens `t` after the key,
      with `held` values already in the list: a `-`-prefixed token ends it
      unless the policy is EXACTLY; for EXACTLY and AT_MOST, holding
      `count` values ends it; otherwise the front token is popped and
      appended. The result is the number of tokens popped. */
  function Taken(mt: MultiType, count: Option<int>, held: nat, t: seq<string>): (n: nat)
    decreases |t|
    ensures n <= |t|
    ensures Limited(mt, count) && held <= count.value ==> held + n <= count.value
  {
    if |t| == 0 then 0
    else if StartsWith(t[0], "-") && mt != Exactly then 0
    else if (mt == AtMost || mt == Exactly) && count == Some(held) then 0
    else 1 + Taken(mt, count, held + 1, t[1..])
  }

  /** Why the capture loop stops where it does: unless the policy is
      EXACTLY, no popped token starts with `-`; a token left in front either
      starts with `-` (not under EXACTLY) or meets a full list (not under
      NO_LIMIT). */
  lemma {:induction false} TakenStops(mt: MultiType, count: Option<int>, held: nat, t: seq<string>)
    ensures var n := Taken(mt, count, held, t);
      (mt != Exactly ==> forall k :: 0 <= k < n ==> !StartsWith(t[k], "-")) &&
      (n < |t| ==> (mt != Exactly && StartsWith(t[n], "-")) || (mt != NoLimit && count == Some(held + n)))
    decreases |t|
  {
    if |t| == 0 {
    } else if StartsWith(t[0], "-") && mt != Exactly {
    } else if (mt == AtMost || mt == Exactly) && count == Some(held) {
    } else {
      TakenStops(mt, count, held + 1, t[1..]);
      var n := Taken(mt, count, held, t);
      assert forall k :: 1 <= k < n ==> t[k] == t[1..][k - 1];
    }
  }

  /** Position `k` of the tokens after the key meets neither stopping
      condition of the capture loop, `held` values being there at the start. */
  predicate Continues(mt: MultiType, count: Option<int>, held: nat, t: seq<string>, k: nat)
    requires k < |t|
  {
    !(StartsWith(t[k], "-") && mt != Exactly) && !((mt == AtMost || mt == Exactly) && count == Some(held + k))
  }

  /** Up to where the capture loop stops, a position is passed exactly when
      it lies before the number of tokens popped. */
  lemma {:induction false} TakenCut(mt: MultiType, count: Option<int>, held: nat, t: seq<string>, i: nat)
    requires i < |t| && i <= Taken(mt, count, held, t)
    ensures i < Taken(mt, count, held, t) <==> Continues(mt, count, held, t, i)
    decreases i
  {
    if i > 0 {
      assert t[1..][i - 1] == t[i];
      TakenCut(mt, count, held + 1, t[1..], i - 1);
    }
  }

  /** Appending the next token keeps the list equal to the start followed
      by the tokens popped so far. */
  lemma AppendStep(start: seq<Value>, t: seq<string>, i: nat)
    requires i < |t|
    ensures start + Wrap(t[..i]) + [VStr(t[i])] == start + Wrap(t[..i + 1])
  {
    assert Wrap(t[..i + 1]) == Wrap(t[..i]) + [VStr(t[i])];
  }

  /** Index of the first `-`-prefixed token, or the length. */
  function FirstDash(t: seq<string>): (n: nat)
    ensures n <= |t|
    ensures n < |t| ==> StartsWith(t[n], "-")
    ensures forall k :: 0 <= k < n ==> !StartsWith(t[k], "-")
  {
    if t == [] || StartsWith(t[0], "-") then 0 else 1 + FirstDash(t[1..])
  }

  function Min(a: int, b: int): int {
    if a <= b then a else b
  }

  /** How many values each policy captures, from a list of `held` values:
      NO_LIMIT stops at the first dash token, AT_MOST at the first dash
      token or at `count`, EXACTLY at `count` or when the tokens run out. */
  lemma {:induction false} TakenLength(mt: MultiType, count: Option<int>, held: nat, t: seq<string>)
    requires mt != NoLimit ==> count.Some? && held <= count.value
    ensures var n := Taken(mt, count, held, t);
      (mt == NoLimit ==> n == FirstDash(t)) &&
      (mt == AtMost ==> n == Min(count.value - held, FirstDash(t))) &&
      (mt == Exactly ==> n == Min(count.value - held, |t|))
    decreases |t|
  {
    if |t| == 0 {
    } else if StartsWith(t[0], "-") && mt != Exactly {
    } else if (mt == AtMost || mt == Exactly) && count == Some(held) {
    } else {
      TakenLength(mt, count, held + 1, t[1..]);
    }
  }

  datatype Coerced = AllCoerced(values: seq<Value>) | BadValue(index: nat, values: seq<Value>)

  /** The data-type loop of `_do_accept` from index `i` on: each value is
      replaced in place by its converted form; the first one that does not
      convert stops the loop. */
  function Coerce(conv: Value -> Option<Value>, xs: seq<Value>, i: nat): (r: Coerced)
    requires i <= |xs|
    decreases |xs| - i
    ensures |r.values| == |xs| && r.values[..i] == xs[..i]
    ensures r.BadValue? ==> i <= r.index < |xs|
  {
    if i == |xs| then AllCoerced(xs)
    else
      match conv(xs[i])
      case None => BadValue(i, xs)
      case Some(v) =>
        var r := Coerce(conv, xs[i := v], i + 1);
        assert xs[i := v][..i] == xs[..i];
        r
  }

  /** Every value before the stopping point is replaced by its converted
      form; the value the loop stops at does not convert and it and the
      values after it are left as they were. */
  lemma {:induction false} CoerceConverts(conv: Value -> Option<Value>, xs: seq<Value>, i: nat)
    requires i <= |xs|
    ensures var r := Coerce(conv, xs, i);
      (r.AllCoerced? ==> forall k :: i <= k < |xs| ==> conv(xs[k]) == Some(r.values[k])) &&
      (r.BadValue? ==> conv(xs[r.index]).None? && r.values[r.index..] == xs[r.index..]) &&
      (r.BadValue? ==> forall k :: i <= k < r.index ==> conv(xs[k]) == Some(r.values[k]))
    decreases |xs| - i
  {
    if i < |xs| && conv(xs[i]).Some? {
      var v := conv(xs[i]).value;
      CoerceConverts(conv, xs[i := v], i + 1);
      assert forall k :: i < k < |xs| ==> xs[i := v][k] == xs[k];
      var r := Coerce(conv, xs[i := v], i + 1);
      assert r.values[i] == v by {
        assert r.values[..i + 1] == xs[i := v][..i + 1];
      }
    }
  }

  /** The conversion `_validate_datatype` applies for data type `dt`. */
  function Converter(dt: DataType): Value -> Option<Value> {
    x => Validate(dt, x)
  }

  function CountMessage(key: string, count: Option<int>, found: nat): string {
    key + ": expected " + OptIntText(count) + " parameters but only found " + IntToString(found)
  }

  /** The end of `MultiParamOpt._do_accept`, once the key is recorded in
      `s` and the capture loop has filled its list, `rest` being left on
      the stack: EXACTLY demands `count` values, then with a data type
      every value is converted, the first failure being an ERROR naming
      the raw value. Only the ACCEPTED path sets `initialized`. */
  function Settle(d: Descriptor, mt: MultiType, count: Option<int>, s: OptState, rest: seq<string>): (r: AcceptStep)
    requires s.suppliedKey.Some? && s.value.VList?
    ensures r.reply != Ignored && r.tokens == rest && r.state.suppliedKey == s.suppliedKey
    ensures r.state.value.VList? && |r.state.value.items| == |s.value.items|
    ensures r.reply.Accepted? ==> r.state.initialized
    ensures !r.reply.Accepted? ==> r.state.initialized == s.initialized
    ensures r.reply.Accepted? && d.dataType.None? ==> r.state.value == s.value
    ensures mt == Exactly && count != Some(|s.value.items|) ==>
              r == AcceptStep(Error(CountMessage(s.suppliedKey.value, count, |s.value.items|)), s, rest)
    ensures r.reply.Accepted? && d.dataType.Some? ==>
              forall k :: 0 <= k < |s.value.items| ==> Validate(d.dataType.value, s.value.items[k]) == Some(r.state.value.items[k])
    ensures r.reply.Error? && !(mt == Exactly && count != Some(|s.value.items|)) ==>
              d.dataType.Some? &&
              exists j :: 0 <= j < |s.value.items| && Validate(d.dataType.value, s.value.items[j]).None? &&
                r.reply.message == ParamOpt.BadTypeMessage(s.suppliedKey.value, s.value.items[j], d.dataType.value) &&
                r.state.value.items[j..] == s.value.items[j..] &&
                forall k :: 0 <= k < j ==> Validate(d.dataType.value, s.value.items[k]) == Some(r.state.value.items[k])
  {
    var key, captured := s.suppliedKey.value, s.value.items;
    if mt == Exactly && count != Some(|captured|) then
      AcceptStep(Error(CountMessage(key, count, |captured|)), s, rest)
    else if d.dataType.None? then
      AcceptStep(Accepted, s.(initialized := true), rest)
    else
      CoerceConverts(Converter(d.dataType.value), captured, 0);
      match Coerce(Converter(d.dataType.value), captured, 0)
      case AllCoerced(ys) => AcceptStep(Accepted, s.(value := VList(ys), initialized := true), rest)
      case BadValue(j, ys) =>
        AcceptStep(Error(ParamOpt.BadTypeMessage(key, captured[j], d.dataType.value)), s.(value := VList(ys)), rest)
  }

  /** `MultiParamOpt._do_accept`: with fewer than two tokens an ERROR and no
      change; otherwise the key is popped and recorded, the capture loop
      appends the tokens `Taken` counts, and `Settle` finishes. */
  function DoAccept(d: Descriptor, mt: MultiType, count: Option<int>, s: OptState, tokens: seq<string>): (r: AcceptStep)
    ensures |tokens| < 2 ==> r == AcceptStep(Error(ParamOpt.MissingValueMessage(s.suppliedKey)), s, tokens)
    ensures |tokens| >= 2 ==>
              var n := Taken(mt, count, |Items(s.value)|, tokens[1..]);
              r.tokens == tokens[1 + n..] && r.state.suppliedKey == Some(tokens[0]) &&
              r.state.value.VList? && |r.state.value.items| == |Items(s.value)| + n
    ensures r.reply.Accepted? ==> r.state.initialized
    ensures !r.reply.Accepted? ==> r.state.initialized == s.initialized
    ensures r.reply.Accepted? && d.dataType.None? ==>
              r.state.value == VList(Items(s.value) + Wrap(tokens[1..|tokens| - |r.tokens|]))
    ensures r.reply.Accepted? && d.dataType.Some? ==>
              var xs := Items(s.value) + Wrap(tokens[1..|tokens| - |r.tokens|]);
              forall k :: 0 <= k < |xs| ==> Validate(d.dataType.value, xs[k]) == Some(r.state.value.items[k])
    ensures |tokens| >= 2 && r.reply.Error? && !(mt == Exactly && count != Some(|r.state.value.items|)) ==>
              var xs := Items(s.value) + Wrap(tokens[1..|tokens| - |r.tokens|]);
              d.dataType.Some? &&
              exists j :: 0 <= j < |xs| && Validate(d.dataType.value, xs[j]).None? &&
                r.reply.message == ParamOpt.BadTypeMessage(tokens[0], xs[j], d.dataType.value) &&
                r.state.value.items[j..] == xs[j..] &&
                forall k :: 0 <= k < j ==> Validate(d.dataType.value, xs[k]) == Some(r.state.value.items[k])
    ensures r.reply != Ignored
  {
    if |tokens| < 2 then AcceptStep(Error(ParamOpt.MissingValueMessage(s.suppliedKey)), s, tokens)
    else
      var n := Taken(mt, count, |Items(s.value)|, tokens[1..]);
      Settle(d, mt, count, s.(suppliedKey := Some(tokens[0]), value := VList(Items(s.value) + Wrap(tokens[1..1 + n]))),
             tokens[1 + n..])
  }

  /** With two tokens or more, `DoAccept` is `Settle` after the capture. */
  lemma DoAcceptSettles(d: Descriptor, mt: MultiType, count: Option<int>, s: OptState, tokens: seq<string>)
    requires |tokens| >= 2
    ensures var n := Taken(mt, count, |Items(s.value)|, tokens[1..]);
      DoAccept(d, mt, count, s, tokens)
      == Settle(d, mt, count, s.(suppliedKey := Some(tokens[0]), value := VList(Items(s.value) + Wrap(tokens[1..1 + n]))),
                tokens[1 + n..])
  {
  }

  /** EXACTLY takes `count` tokens whatever they look like, and leaves the
      rest on the stack. */
  lemma ExactlyTakesCount(d: Descriptor, c: nat, s: OptState, tokens: seq<string>)
    requires d.dataType.None? && s.value == VList([]) && |tokens| >= 2 && |tokens| - 1 >= c
    ensures DoAccept(d, Exactly, Some(c), s, tokens)
            == AcceptStep(Accepted, OptState(Some(tokens[0]), VList(Wrap(tokens[1..1 + c])), true), tokens[1 + c..])
  {
    TakenLength(Exactly, Some(c), 0, tokens[1..]);
    assert [] + Wrap(tokens[1..1 + c]) == Wrap(tokens[1..1 + c]);
  }

  /** EXACTLY with too few tokens left drains the stack and reports how many
      values it found. */
  lemma ExactlyShortfall(d: Descriptor, c: nat, s: OptState, tokens: seq<string>)
    requires s.value == VList([]) && 2 <= |tokens| <= c
    ensures DoAccept(d, Exactly, Some(c), s, tokens).reply == Error(CountMessage(tokens[0], Some(c), |tokens| - 1))
    ensures DoAccept(d, Exactly, Some(c), s, tokens).tokens == []
    ensures !DoAccept(d, Exactly, Some(c), s, tokens).state.initialized || s.initialized
  {
    TakenLength(Exactly, Some(c), 0, tokens[1..]);
  }

  /** AT_MOST captures up to the first dash token or `count` values,
      whichever comes first, and never reports too few. */
  lemma AtMostStops(d: Descriptor, c: nat, s: OptState, tokens: seq<string>)
    requires d.dataType.None? && s.value == VList([]) && |tokens| >= 2
    ensures var r := DoAccept(d, AtMost, Some(c), s, tokens);
      r.reply == Accepted && |r.state.value.items| == Min(c, FirstDash(tokens[1..]))
  {
    TakenLength(AtMost, Some(c), 0, tokens[1..]);
  }

  /** NO_LIMIT captures every token up to the first dash token (`--`
      included), and all of them when there is none. */
  lemma NoLimitStops(d: Descriptor, count: Option<int>, s: OptState, tokens: seq<string>)
    requires d.dataType.None? && s.value == VList([]) && |tokens| >= 2
    ensures var r := DoAccept(d, NoLimit, count, s, tokens);
      r.reply == Accepted && |r.state.value.items| == FirstDash(tokens[1..]) &&
      r.tokens == tokens[1 + FirstDash(tokens[1..])..]
  {
    TakenLength(NoLimit, count, 0, tokens[1..]);
  }

  /** For EXACTLY and AT_MOST the list never outgrows `count`. */
  lemma ValueBounded(d: Descriptor, mt: MultiType, count: Option<int>, s: OptState, tokens: seq<string>)
    requires Limited(mt, count) && s.value.VList? && |s.value.items| <= count.value
    ensures |Items(DoAccept(d, mt, count, s, tokens).state.value)| <= count.value
  {
    if |tokens| >= 2 {
      var n := Taken(mt, count, |Items(s.value)|, tokens[1..]);
      assert |Items(s.value)| + n <= count.value;
    }
  }

  /** A value that does not convert is reported by its raw text, and the
      values before it are already converted. */
  lemma BadValueNamed(d: Descriptor, count: Option<int>, s: OptState, key: string, good: string, bad: string)
    requires d.dataType == Some(Int) && s.value == VList([])
    requires ParseInt(good).Some? && ParseInt(bad).None?
    requires |good| > 0 && good[0] != '-' && |bad| > 0 && bad[0] != '-'
    ensures var r := DoAccept(d, NoLimit, count, s, [key, good, bad]);
      r.reply == Error(ParamOpt.BadTypeMessage(key, VStr(bad), Int)) &&
      r.state.value == VList([VInt(ParseInt(good).value), VStr(bad)]) &&
      r.state.initialized == s.initialized && r.tokens == []
  {
    var s1 := s.(suppliedKey := Some(key), value := VList([VStr(good), VStr(bad)]));
    CapturesBoth(d, count, s, key, good, bad);
    SettlesOnBad(d, count, s1, good, bad);
  }

  lemma SettlesOnBad(d: Descriptor, count: Option<int>, s1: OptState, good: string, bad: string)
    requires d.dataType == Some(Int) && s1.suppliedKey.Some? && s1.value == VList([VStr(good), VStr(bad)])
    requires ParseInt(good).Some? && ParseInt(bad).None?
    ensures Settle(d, NoLimit, count, s1, [])
            == AcceptStep(Error(ParamOpt.BadTypeMessage(s1.suppliedKey.value, VStr(bad), Int)),
                          s1.(value := VList([VInt(ParseInt(good).value), VStr(bad)])), [])
  {
    CoerceStopsAtBad(good, bad);
  }

  lemma CapturesBoth(d: Descriptor, count: Option<int>, s: OptState, key: string, good: string, bad: string)
    requires s.value == VList([])
    requires |good| > 0 && good[0] != '-' && |bad| > 0 && bad[0] != '-'
    ensures DoAccept(d, NoLimit, count, s, [key, good, bad])
            == Settle(d, NoLimit, count, s.(suppliedKey := Some(key), value := VList([VStr(good), VStr(bad)])), [])
  {
    var t := [key, good, bad];
    assert t[1..] == [good, bad];
    TakesBoth(count, good, bad);
    assert Items(s.value) + Wrap(t[1..3]) == [VStr(good), VStr(bad)];
  }

  lemma TakesBoth(count: Option<int>, good: string, bad: string)
    requires |good| > 0 && good[0] != '-' && |bad| > 0 && bad[0] != '-'
    ensures Taken(NoLimit, count, 0, [good, bad]) == 2
  {
    assert !StartsWith(good, "-") && !StartsWith(bad, "-") by {
      assert good[..1] != "-" && bad[..1] != "-";
    }
    assert [good, bad][1..] == [bad];
    assert [bad][1..] == [];
  }

  lemma CoerceStopsAtBad(good: string, bad: string)
    requires ParseInt(good).Some? && ParseInt(bad).None?
    ensures Coerce(Converter(Int), [VStr(good), VStr(bad)], 0) == BadValue(1, [VInt(ParseInt(good).value), VStr(bad)])
  {
    assert Validate(Int, VStr(good)) == Some(VInt(ParseInt(good).value));
    assert [VStr(good), VStr(bad)][0 := VInt(ParseInt(good).value)] == [VInt(ParseInt(good).value), VStr(bad)];
  }
}
