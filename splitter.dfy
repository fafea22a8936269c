/** `Splitter.split_list` of pycmdparse/splitter.py and its two helpers:
    normalising an argument list into the token sequence the dispatcher
    consumes. A token is `None` where the source stores Python's `None`
    (a whitespace-only long-form value). */
module Splitter {
  import opened Wrappers
  import opened Strings

  type Token = Option<string>

  datatype SplitError =
    | Invalid(message: string)  // CmdLineException("Invalid: ...")
    | EmptyToken                // IndexError from reading token[0] of ""

  function Verbatim(ts: seq<string>): (r: seq<Token>)
    ensures |r| == |ts| && forall i :: 0 <= i < |ts| ==> r[i] == Some(ts[i])
  {
    seq(|ts|, i requires 0 <= i < |ts| => Some(ts[i]))
  }

  /** One `-c` token per character of `s`. */
  function Flags(s: string): (r: seq<Token>)
    ensures |r| == |s| && forall i :: 0 <= i < |s| ==> r[i] == Some(['-', s[i]])
  {
    seq(|s|, i requires 0 <= i < |s| => Some(['-', s[i]]))
  }

  /** The expansion of a short-form element (`-cvf`, `-cvf=foo`) with at
      least two characters: a flag per character up to the first `=` after
      the leading dash, then the text after that `=` as a single token when
      it is not empty. */
  function ShortForm(element: string): seq<Token>
    requires |element| > 1
  {
    var k := IndexFrom(element, '=', 1);
    Flags(element[1..k]) + (if k + 1 < |element| then [Some(element[k + 1..])] else [])
  }

  /** `element.split("=", 1)` with a whitespace-only value replaced by `None`. */
  function LongForm(element: string): (r: seq<Token>)
    ensures 1 <= |r| <= 2
    ensures |r| == 1 <==> '=' !in element
    ensures |r| == 1 ==> r[0] == Some(element)
    ensures |r| == 2 ==>
      exists k :: (0 <= k < |element| && element[k] == '=' && '=' !in element[..k]
        && r[0] == Some(element[..k])
        && r[1] == (if IsSpaceStr(element[k + 1..]) then None else Some(element[k + 1..])))
  {
    var k := IndexFrom(element, '=', 0);
    if k == |element| then
      assert forall i :: 0 <= i < |element| ==> element[i] != '=';
      [Some(element)]
    else
      var value := element[k + 1..];
      assert '=' !in element[..k] by {
        forall i | 0 <= i < k ensures element[..k][i] != '=' { }
      }
      [Some(element[..k]), if IsSpaceStr(value) then None else Some(value)]
  }

  /** `_handle_short_form`: the loop over the characters after the dash,
      stopping at the first `=`. */
  method HandleShortForm(element: string) returns (r: Result<seq<Token>, SplitError>)
    ensures |element| <= 1 <==> r.Failure?
    ensures r.Failure? ==> r.error == Invalid("Invalid: " + element)
    ensures r.Success? ==> r.value == ShortForm(element)
  {
    if |element| <= 1 {
      return Failure(Invalid("Invalid: " + element));
    }
    var tokens: seq<Token> := [];
    var i := 1;
    while i < |element|
      invariant 1 <= i <= |element|
      invariant forall j :: 1 <= j < i ==> element[j] != '='
      invariant tokens == Flags(element[1..i])
    {
      if element[i] == '=' {
        if i + 1 < |element| {
          tokens := tokens + [Some(element[i + 1..])];
        }
        break;
      }
      tokens := tokens + [Some(['-', element[i]])];
      i := i + 1;
    }
    var k := IndexFrom(element, '=', 1);
    assert k == i;
    return Success(tokens);
  }

  /** `_handle_long_form`. */
  method HandleLongForm(element: string) returns (r: Result<seq<Token>, SplitError>)
    ensures |element| <= 2 <==> r.Failure?
    ensures r.Failure? ==> r.error == Invalid("Invalid: " + element)
    ensures r.Success? ==> r.value == LongForm(element)
  {
    if |element| <= 2 {
      return Failure(Invalid("Invalid: " + element));
    }
    var k := IndexFrom(element, '=', 0);
    var tokens: seq<Token>;
    if k == |element| {
      tokens := [Some(element)];
    } else {
      tokens := [Some(element[..k]), Some(element[k + 1..])];
      if IsSpaceStr(element[k + 1..]) {
        tokens := tokens[1 := None];
      }
    }
    return Success(tokens);
  }

  /** Prepends tokens to a split result. */
  function Prefixed(head: seq<Token>, rest: Result<seq<Token>, SplitError>): Result<seq<Token>, SplitError> {
    match rest
    case Success(ts) => Success(head + ts)
    case Failure(e) => Failure(e)
  }

  lemma PrefixedNothing(r: Result<seq<Token>, SplitError>)
    ensures Prefixed([], r) == r
  {
    if r.Success? {
      assert [] + r.value == r.value;
    }
  }

  lemma PrefixedTwice(a: seq<Token>, b: seq<Token>, r: Result<seq<Token>, SplitError>)
    ensures Prefixed(a, Prefixed(b, r)) == Prefixed(a + b, r)
  {
    if r.Success? {
      assert a + (b + r.value) == (a + b) + r.value;
    }
  }

  /** What `split_list` produces for `cmdline`, token by token: from the
      first `--` on everything is copied verbatim; before it a token not
      starting with a dash is copied, a token starting with `--` goes
      through the long form and any other dash token through the short form. */
  function Split(cmdline: seq<string>): Result<seq<Token>, SplitError>
    decreases |cmdline|
  {
    if cmdline == [] then Success([])
    else
      var token := cmdline[0];
      if token == "--" then Success(Verbatim(cmdline))
      else if token == "" then Failure(EmptyToken)
      else if token[0] != '-' then Prefixed([Some(token)], Split(cmdline[1..]))
      else if StartsWith(token, "--") then
        if |token| <= 2 then Failure(Invalid("Invalid: " + token))
        else Prefixed(LongForm(token), Split(cmdline[1..]))
      else if |token| <= 1 then Failure(Invalid("Invalid: " + token))
      else Prefixed(ShortForm(token), Split(cmdline[1..]))
  }

  lemma VerbatimStep(before: seq<Token>, ts: seq<string>)
    requires ts != []
    ensures before + Verbatim(ts) == (before + [Some(ts[0])]) + Verbatim(ts[1..])
  {
    assert Verbatim(ts) == [Some(ts[0])] + Verbatim(ts[1..]);
  }

  /** The body of the loop of `split_list` for a token before `--`: what
      it appends to the token list, or the error it raises. */
  method SplitElement(token: string, ghost rest: seq<string>) returns (r: Result<seq<Token>, SplitError>)
    requires token != "--"
    ensures r.Success? ==> Split([token] + rest) == Prefixed(r.value, Split(rest))
    ensures r.Failure? ==> Split([token] + rest) == Failure(r.error)
  {
    assert ([token] + rest)[0] == token && ([token] + rest)[1..] == rest;
    if token == "" {
      return Failure(EmptyToken);
    } else if token[0] != '-' {
      return Success([Some(token)]);
    } else if StartsWith(token, "--") {
      r := HandleLongForm(token);
    } else {
      r := HandleShortForm(token);
    }
  }

  /** `split_list`, with its `in_positional_params` flag. (The source wraps
      the list in a `Stack`; see TokenStack.) */
  method SplitList(cmdline: seq<string>) returns (r: Result<seq<Token>, SplitError>)
    ensures r == Split(cmdline)
  {
    var tokenList: seq<Token> := [];
    var inPositionalParams := false;
    var i := 0;
    assert cmdline[i..] == cmdline;
    PrefixedNothing(Split(cmdline));
    while i < |cmdline|
      invariant 0 <= i <= |cmdline|
      invariant !inPositionalParams ==> Split(cmdline) == Prefixed(tokenList, Split(cmdline[i..]))
      invariant inPositionalParams ==> Split(cmdline) == Success(tokenList + Verbatim(cmdline[i..]))
    {
      var token := cmdline[i];
      assert cmdline[i..][1..] == cmdline[i + 1..];
      ghost var before := tokenList;
      if inPositionalParams || token == "--" {
        if !inPositionalParams {
          assert Split(cmdline[i..]) == Success(Verbatim(cmdline[i..]));
        }
        tokenList := tokenList + [Some(token)];
        inPositionalParams := true;
        VerbatimStep(before, cmdline[i..]);
      } else {
        assert cmdline[i..] == [token] + cmdline[i + 1..];
        var parts := SplitElement(token, cmdline[i + 1..]);
        if parts.Failure? {
          return Failure(parts.error);
        }
        tokenList := tokenList + parts.value;
        PrefixedTwice(before, parts.value, Split(cmdline[i + 1..]));
      }
      i := i + 1;
    }
    assert cmdline[i..] == [];
    assert tokenList + [] == tokenList;
    return Success(tokenList);
  }
}

module SplitterProperties {
  import opened Wrappers
  import opened Strings
  import opened Splitter

  /** Sequencing of two split results: the first failure wins. */
  function Then(first: Result<seq<Token>, SplitError>, second: Result<seq<Token>, SplitError>): Result<seq<Token>, SplitError> {
    match first
    case Failure(e) => Failure(e)
    case Success(ts) => Prefixed(ts, second)
  }

  /** Before any `--`, splitting works token by token: the split of a
      concatenation is the concatenation of the splits, so input order is
      kept and the first bad token decides the failure. */
  lemma {:induction false} SplitAppend(a: seq<string>, b: seq<string>)
    requires "--" !in a
    ensures Split(a + b) == Then(Split(a), Split(b))
  {
    if a == [] {
      assert a + b == b;
      PrefixedNothing(Split(b));
    } else {
      assert (a + b)[0] == a[0];
      assert (a + b)[1..] == a[1..] + b;
      SplitAppend(a[1..], b);
      var t := a[0];
      if t != "" && (t[0] != '-' || (StartsWith(t, "--") && |t| > 2) || (!StartsWith(t, "--") && |t| > 1)) {
        var head := if t[0] != '-' then [Some(t)] else if StartsWith(t, "--") then LongForm(t) else ShortForm(t);
        assert Split(a) == Prefixed(head, Split(a[1..]));
        assert Split(a + b) == Prefixed(head, Split(a[1..] + b));
        match Split(a[1..])
        case Failure(e) =>
        case Success(ts) => PrefixedTwice(head, ts, Split(b));
      }
    }
  }

  /** Once `--` is reached, it and every later token come out verbatim and
      in order. */
  lemma SentinelVerbatim(a: seq<string>, b: seq<string>)
    requires "--" !in a
    ensures Split(a + ["--"] + b) == Then(Split(a), Success(Verbatim(["--"] + b)))
  {
    assert a + ["--"] + b == a + (["--"] + b);
    SplitAppend(a, ["--"] + b);
  }

  /** Tokens that do not start with a dash pass through unchanged. */
  lemma {:induction false} ValuesUnchanged(c: seq<string>)
    requires forall i :: 0 <= i < |c| ==> c[i] != "" && c[i][0] != '-'
    ensures Split(c) == Success(Verbatim(c))
  {
    if c != [] {
      ValuesUnchanged(c[1..]);
      assert Verbatim(c) == [Some(c[0])] + Verbatim(c[1..]);
    }
  }

  /** Splitting fails exactly when, before any `--`, some token is the
      empty string (the source indexes `token[0]`) or a bare `-` (the source
      raises "Invalid: -"). A token of three or more characters starting
      with `--` never fails, so the long-form length guard cannot fire. */
  lemma {:induction false} SplitFailsIff(c: seq<string>)
    ensures Split(c).Failure? <==> BadBeforeDashes(c)
  {
    if c == [] {
    } else if c[0] == "--" {
      forall i | 0 <= i < |c| && "--" !in c[..i] ensures c[i] != "" && c[i] != "-" {
        assert c[..i + 1][0] == "--";
      }
    } else if c[0] == "" || c[0] == "-" {
      assert c[..0] == [];
    } else {
      SplitFailsIff(c[1..]);
      FailsWithTail(c);
      BadShifts(c);
    }
  }

  /** Some token before any `--` is empty or a bare `-`. */
  predicate BadBeforeDashes(c: seq<string>) {
    exists i :: 0 <= i < |c| && "--" !in c[..i] && (c[i] == "" || c[i] == "-")
  }

  /** A good first token before `--` passes the failure on from the rest. */
  lemma FailsWithTail(c: seq<string>)
    requires c != [] && c[0] != "--" && c[0] != "" && c[0] != "-"
    ensures Split(c).Failure? <==> Split(c[1..]).Failure?
  {
    var t := c[0];
    assert StartsWith(t, "--") ==> |t| > 2;
    assert !StartsWith(t, "--") && t[0] == '-' ==> |t| > 1;
  }

  lemma PrefixShift(c: seq<string>, n: nat)
    requires 0 < n <= |c|
    ensures c[..n] == [c[0]] + c[1..][..n - 1]
  {
    forall k | 0 <= k < n ensures c[..n][k] == ([c[0]] + c[1..][..n - 1])[k] {
      if k > 0 {
        assert c[1..][..n - 1][k - 1] == c[k];
      }
    }
  }

  lemma BadShifts(c: seq<string>)
    requires c != [] && c[0] != "--" && c[0] != "" && c[0] != "-"
    ensures BadBeforeDashes(c) <==> BadBeforeDashes(c[1..])
  {
    var t := c[0];
    if BadBeforeDashes(c[1..]) {
      var j :| 0 <= j < |c[1..]| && "--" !in c[1..][..j] && (c[1..][j] == "" || c[1..][j] == "-");
      PrefixShift(c, j + 1);
      assert c[j + 1] == c[1..][j];
    }
    if BadBeforeDashes(c) {
      var i :| 0 <= i < |c| && "--" !in c[..i] && (c[i] == "" || c[i] == "-");
      assert i > 0;
      PrefixShift(c, i);
      assert c[1..][i - 1] == c[i];
    }
  }

  /** A bundle without `=` yields one `-c` token per character after the
      dash: `|element| - 1` tokens. */
  lemma ShortBundleFlags(element: string)
    requires |element| > 1 && '=' !in element[1..]
    ensures ShortForm(element) == Flags(element[1..])
    ensures |ShortForm(element)| == |element| - 1
  {
    forall i | 1 <= i < |element| ensures element[i] != '=' {
      assert element[i] == element[1..][i - 1];
    }
    IndexFromIs(element, '=', 1, |element|);
  }

  /** In a bundle, everything after the first `=` is one extra token that is
      never split into flags; a trailing bare `=` adds nothing. */
  lemma ShortBundleValue(element: string, k: nat)
    requires 1 <= k < |element| && element[k] == '=' && '=' !in element[1..k]
    ensures ShortForm(element) == Flags(element[1..k]) + (if k + 1 < |element| then [Some(element[k + 1..])] else [])
  {
    forall i | 1 <= i < k ensures element[i] != '=' {
      assert element[i] == element[1..k][i - 1];
    }
    IndexFromIs(element, '=', 1, k);
  }

  lemma BundleWithValue()
    ensures Split(["-abc=foo"]) == Success([Some("-a"), Some("-b"), Some("-c"), Some("foo")])
  {
    var t := "-abc=foo";
    assert t[1..4] == "abc";
    ShortBundleValue(t, 4);
    assert t[5..] == "foo";
    assert !StartsWith(t, "--");
    assert [t][1..] == [];
    assert Split([t]) == Prefixed(ShortForm(t), Split([]));
    assert Flags("abc") == [Some("-a"), Some("-b"), Some("-c")];
    assert ShortForm(t) == [Some("-a"), Some("-b"), Some("-c"), Some("foo")];
    assert ShortForm(t) + [] == ShortForm(t);
  }

  lemma LongFormFirstEquals()
    ensures LongForm("--foo=bar=baz") == [Some("--foo"), Some("bar=baz")]
    ensures LongForm("--foo") == [Some("--foo")]
  {
    var t := "--foo=bar=baz";
    IndexFromIs(t, '=', 0, 5);
    assert t[..5] == "--foo";
    assert t[6..] == "bar=baz";
    assert !IsSpaceStr("bar=baz") by { assert "bar=baz"[0] == 'b' && !IsSpace("bar=baz"[0]); }
    IndexFromIs("--foo", '=', 0, 5);
  }

  /** `--foo=` keeps an empty value (the empty string is not whitespace);
      only a whitespace-only value becomes `None`. */
  lemma LongFormBlankValues()
    ensures LongForm("--foo=") == [Some("--foo"), Some("")]
    ensures LongForm("--foo= ") == [Some("--foo"), None]
  {
    IndexFromIs("--foo=", '=', 0, 5);
    IndexFromIs("--foo= ", '=', 0, 5);
    assert "--foo="[..5] == "--foo";
    assert "--foo= "[..5] == "--foo";
    assert "--foo= "[6..] == " ";
  }
}
