/** The formatting helpers of `ShowInfo` in pycmdparse/showinfo.py that
    compute strings and widths; the console output around them is not
    modelled. */
module ShowInfo {
  import opened Wrappers
  import opened Strings
  import opened AbstractOpt
  import opened Options
  import opened Parser

  function Max(a: nat, b: nat): nat {
    if a < b then b else a
  }

  /** `_fixed`: `val` followed by `width` spaces, sliced `[0:width]` with
      Python's slice rules, so a negative width drops that many characters
      from the end of `val`. */
  function Fixed(val: string, width: int): (r: string)
    ensures width >= 0 ==> |r| == width
    ensures width >= 0 && |val| <= width ==> r == val + Spaces(width - |val|)
    ensures width >= 0 && |val| >= width ==> r == val[..width]
    ensures width < 0 ==> r == val[..if |val| + width < 0 then 0 else |val| + width]
  {
    var padded := val + Spaces(if width < 0 then 0 else width);
    var end := if width >= 0 then width else if |padded| + width < 0 then 0 else |padded| + width;
    padded[..end]
  }

  /** `_prepend_required`: a missing or blank help text is returned as it
      is; any other is prefixed by whether the option is mandatory. */
  function PrependRequired(helpText: Option<string>, required: Option<bool>): (r: Option<string>)
    ensures helpText.None? ==> r.None?
    ensures helpText.Some? && IsBlank(helpText.value) ==> r == helpText
    ensures helpText.Some? && !IsBlank(helpText.value) ==>
              r.Some? && |r.value| == |helpText.value| + (if required == Some(true) then 11 else 10) &&
              r.value[|r.value| - |helpText.value|..] == helpText.value &&
              (required == Some(true) <==> StartsWith(r.value, "Mandatory. ")) &&
              (required != Some(true) <==> StartsWith(r.value, "Optional. "))
  {
    if helpText.None? || IsBlank(helpText.value) then helpText
    else
      var prefix := if required == Some(true) then "Mandatory. " else "Optional. ";
      assert StartsWith(prefix + helpText.value, prefix);
      assert "Mandatory. "[0] != "Optional. "[0];
      Some(prefix + helpText.value)
  }

  /** The largest of `ws`, 0 when there are none. */
  function MaxOf(ws: seq<nat>): nat {
    if ws == [] then 0 else Max(MaxOf(ws[..|ws| - 1]), ws[|ws| - 1])
  }

  /** The `keys_and_hint` width of each option. */
  function Widths(opts: seq<Opt>): (r: seq<nat>)
    ensures |r| == |opts|
  {
    seq(|opts|, i requires 0 <= i < |opts| => |KeysAndHint(opts[i].desc)|)
  }

  /** What `_calc_left_len` computes: the widest option over all
      categories. */
  function LeftLen(cats: seq<Category>): nat {
    MaxOf(Widths(Concat(cats)))
  }

  /** `MaxOf` is a maximum: no element is larger, and it is one of the
      elements unless there are none. */
  lemma {:induction false} MaxOfIsMax(ws: seq<nat>)
    ensures forall k :: 0 <= k < |ws| ==> ws[k] <= MaxOf(ws)
    ensures ws == [] ==> MaxOf(ws) == 0
    ensures ws != [] ==> exists k :: 0 <= k < |ws| && ws[k] == MaxOf(ws)
  {
    if ws != [] {
      var n := |ws| - 1;
      var init := ws[..n];
      MaxOfIsMax(init);
      assert forall k :: 0 <= k < n ==> init[k] == ws[k];
      if ws[n] < MaxOf(init) {
        var k :| 0 <= k < n && init[k] == MaxOf(init);
        assert ws[k] == init[k];
      }
    }
  }

  lemma WidthsSnoc(opts: seq<Opt>, o: Opt)
    ensures Widths(opts + [o]) == Widths(opts) + [|KeysAndHint(o.desc)|]
  {
    assert forall i :: 0 <= i < |opts| ==> (opts + [o])[i] == opts[i];
  }

  lemma MaxOfSnoc(ws: seq<nat>, w: nat)
    ensures MaxOf(ws + [w]) == Max(MaxOf(ws), w)
  {
    assert (ws + [w])[..|ws|] == ws;
  }

  /** One more option seen: the widest so far grows to its width when it
      is wider. */
  lemma WidestStep(seen: seq<Opt>, options: seq<Opt>, j: nat)
    requires j < |options|
    ensures MaxOf(Widths(seen + options[..j + 1]))
            == Max(MaxOf(Widths(seen + options[..j])), |KeysAndHint(options[j].desc)|)
  {
    assert seen + options[..j + 1] == (seen + options[..j]) + [options[j]];
    WidthsSnoc(seen + options[..j], options[j]);
    MaxOfSnoc(Widths(seen + options[..j]), |KeysAndHint(options[j].desc)|);
  }

  /** `_calc_left_len` is at least as wide as every option in every
      category, and is the width of one of them, or 0 when no category
      has an option. */
  lemma LeftLenIsMax(cats: seq<Category>)
    ensures forall c, k :: 0 <= c < |cats| && 0 <= k < |cats[c].options| ==>
              |KeysAndHint(cats[c].options[k].desc)| <= LeftLen(cats)
    ensures (forall c :: 0 <= c < |cats| ==> cats[c].options == []) ==> LeftLen(cats) == 0
    ensures LeftLen(cats) == 0 ||
            exists c, k :: 0 <= c < |cats| && 0 <= k < |cats[c].options| &&
                           |KeysAndHint(cats[c].options[k].desc)| == LeftLen(cats)
  {
    var opts := Concat(cats);
    var ws := Widths(opts);
    MaxOfIsMax(ws);
    forall c, k | 0 <= c < |cats| && 0 <= k < |cats[c].options|
      ensures |KeysAndHint(cats[c].options[k].desc)| <= LeftLen(cats)
    {
      var o := cats[c].options[k];
      ConcatMembers(cats, o);
      var j :| 0 <= j < |opts| && opts[j] == o;
      assert ws[j] == |KeysAndHint(o.desc)|;
    }
    if opts != [] {
      var j :| 0 <= j < |ws| && ws[j] == MaxOf(ws);
      ConcatMembers(cats, opts[j]);
      var c :| 0 <= c < |cats| && opts[j] in cats[c].options;
      var k :| 0 <= k < |cats[c].options| && cats[c].options[k] == opts[j];
    }
  }

  /** `_calc_left_len`: the loop over the categories and, inside, over
      their options, keeping the widest `keys_and_hint` seen. */
  method CalcLeftLen(cats: seq<Category>) returns (leftLen: nat)
    ensures leftLen == LeftLen(cats)
  {
    leftLen := 0;
    for i := 0 to |cats|
      invariant leftLen == LeftLen(cats[..i])
    {
      var options := cats[i].options;
      ghost var seen := Concat(cats[..i]);
      assert seen + options[..0] == seen;
      for j := 0 to |options|
        invariant leftLen == MaxOf(Widths(seen + options[..j]))
      {
        var width := |KeysAndHint(options[j].desc)|;
        WidestStep(seen, options, j);
        leftLen := if width > leftLen then width else leftLen;
      }
      assert cats[..i + 1][..i] == cats[..i] && cats[..i + 1][i] == cats[i];
      assert options[..|options|] == options;
      assert Concat(cats[..i + 1]) == seen + options;
    }
    assert cats[..|cats|] == cats;
  }
}
