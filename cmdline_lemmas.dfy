/** Properties of `CmdLine._parse` (pycmdparse/cmdline.py), proved about
    the functions of `CmdLineSpec`. */
module CmdLineLemmas {
  import opened Wrappers
  import opened Strings
  import opened AbstractOpt
  import opened TokenStack
  import opened ParseResultEnum
  import Options
  import opened CmdLineSpec

  /** The search stops at the first option that recognises the front
      token, and finds none exactly when no option does. */
  lemma {:induction false} FirstClaimIsFirst(descs: seq<Descriptor>, tokens: seq<string>, from: nat)
    requires from <= |descs|
    ensures var r := FirstClaim(descs, tokens, from);
      (r.None? <==> forall k :: from <= k < |descs| ==> !Recognises(descs[k], tokens)) &&
      (r.Some? ==> forall k :: from <= k < r.value ==> !Recognises(descs[k], tokens))
    decreases |descs| - from
  {
    if from < |descs| && !Recognises(descs[from], tokens) {
      FirstClaimIsFirst(descs, tokens, from + 1);
    }
  }

  /** The options are offered the stack in order: when one takes it, it is
      the first whose accept does not answer IGNORED and its step is that
      accept's; no option takes it exactly when every one ignores it. */
  lemma OfferFirst(descs: seq<Descriptor>, states: seq<OptState>, tokens: seq<string>)
    requires |states| == |descs|
    ensures var r := Offer(descs, states, tokens);
      (r.NoneTaken? <==> forall k :: 0 <= k < |descs| ==> Options.AcceptSpec(descs[k], states[k], tokens).reply == Ignored) &&
      (r.Taken? ==>
         r.step == Options.AcceptSpec(descs[r.index], states[r.index], tokens) && r.step.reply != Ignored &&
         forall k :: 0 <= k < r.index ==> Options.AcceptSpec(descs[k], states[k], tokens).reply == Ignored)
  {
    FirstClaimIsFirst(descs, tokens, 0);
  }

  /** A token without a leading dash is never taken by an option. */
  lemma PlainTokenUnclaimed(descs: seq<Descriptor>, states: seq<OptState>, tokens: seq<string>)
    requires |states| == |descs| && |tokens| > 0 && !StartsWith(tokens[0], "-")
    ensures Offer(descs, states, tokens) == NoneTaken
  {
    FirstClaimIsFirst(descs, tokens, 0);
    assert !LooksLikeOption(tokens[0]) by {
      if |tokens[0]| > 0 {
        assert tokens[0][..1] == [tokens[0][0]];
      }
    }
  }

  lemma HelpIsDashed(t: string)
    requires IsHelp(t)
    ensures StartsWith(t, "-") && t != "--"
  {
    assert |Lower(t)| == |t| && Lower(t)[0] == LowerChar(t[0]);
    assert t[..1] == [t[0]];
    assert t != "--" by {
      assert Lower("--") == "--";
    }
  }

  /** With at least one option, `-h` or `--help` in front (in any case)
      answers SHOW_USAGE at once and changes nothing. */
  lemma HelpShowsUsage(descs: seq<Descriptor>, validator: Option<Subject -> Reply>, s: Session)
    requires Fits(descs, s) && |descs| > 0 && |s.tokens| > 0 && IsHelp(s.tokens[0])
    ensures Parse(descs, validator, s) == Finished(ShowUsage, s)
  {
  }

  /** A front `--` is dropped and ends the scan; with a sink every later
      token goes to it verbatim and in order, without one they are left
      over (and not understood, unless there are none). */
  lemma DoubleDashEndsScan(descs: seq<Descriptor>, validator: Option<Subject -> Reply>, s: Session)
    requires Fits(descs, s) && |descs| > 0 && |s.tokens| > 0 && s.tokens[0] == "--"
    ensures s.params.Some? ==>
              Parse(descs, validator, s) == Conclude(descs, validator, s.(params := Some(s.tokens[1..]), tokens := []))
    ensures s.params.None? ==>
              Parse(descs, validator, s) == Conclude(descs, validator, s.(tokens := s.tokens[1..]))
  {
    assert !IsHelp("--") by {
      assert Lower("--") == "--";
    }
  }

  /** An option that takes the front token and answers ERROR stops the
      parse: its message is appended and nothing else is scanned. */
  lemma OptionErrorStops(descs: seq<Descriptor>, validator: Option<Subject -> Reply>, s: Session, i: nat, step: AcceptStep)
    requires Fits(descs, s) && |descs| > 0 && |s.tokens| > 0 && !IsHelp(s.tokens[0])
    requires Offer(descs, s.states, s.tokens) == Taken(i, step) && step.reply.Error?
    ensures Parse(descs, validator, s)
            == Finished(ParseError, s.(states := s.states[i := step.state], tokens := step.tokens,
                                       errors := Some(Errors(s.errors) + [step.reply.message])))
  {
    assert Recognises(descs[i], s.tokens);
    assert s.tokens[0] != "--" by {
      assert !LooksLikeOption("--");
    }
    var s' := s.(states := s.states[i := step.state], tokens := step.tokens);
    assert LoopBody(descs, s) == Claimed(s, i, step);
    assert Scan(descs, s) == Returned(ParseError, AppendError(s', step.reply.message));
  }

  /** A front token that no option takes is an unsupported option when it
      starts with `-`, or when a `-` token is still to come. */
  lemma UnsupportedOption(descs: seq<Descriptor>, validator: Option<Subject -> Reply>, s: Session)
    requires Fits(descs, s) && |descs| > 0 && |s.tokens| > 0
    requires !IsHelp(s.tokens[0]) && s.tokens[0] != "--" && Offer(descs, s.states, s.tokens) == NoneTaken
    requires StartsWith(s.tokens[0], "-") || AnyOption(s.tokens)
    ensures Parse(descs, validator, s) == Finished(ParseError, AppendError(s, UnsupportedMessage(s.tokens[0])))
  {
  }

  /** A plain front token with no `-` token anywhere on the stack: with a
      sink the whole stack becomes the positional parameters. */
  lemma PositionalCapture(descs: seq<Descriptor>, validator: Option<Subject -> Reply>, s: Session)
    requires Fits(descs, s) && |descs| > 0 && |s.tokens| > 0
    requires !StartsWith(s.tokens[0], "-") && !AnyOption(s.tokens) && s.params.Some?
    ensures Parse(descs, validator, s) == Conclude(descs, validator, s.(params := Some(s.tokens), tokens := []))
  {
    PlainTokenUnclaimed(descs, s.states, s.tokens);
    PlainIsNotHelp(s.tokens[0]);
    var s' := s.(params := Some(s.tokens), tokens := []);
    assert LoopBody(descs, s) == Again(s');
    assert Scan(descs, s') == Scanned(s');
  }

  /** The same without a sink: the loop of `_parse` makes no progress and
      repeats forever. */
  lemma StuckWithoutSink(descs: seq<Descriptor>, validator: Option<Subject -> Reply>, s: Session)
    requires Fits(descs, s) && |descs| > 0 && |s.tokens| > 0
    requires !StartsWith(s.tokens[0], "-") && !AnyOption(s.tokens) && s.params.None?
    ensures Parse(descs, validator, s) == Diverges
  {
    PlainTokenUnclaimed(descs, s.states, s.tokens);
    PlainIsNotHelp(s.tokens[0]);
  }

  lemma PlainIsNotHelp(t: string)
    requires !StartsWith(t, "-")
    ensures !IsHelp(t) && t != "--"
  {
    if IsHelp(t) {
      HelpIsDashed(t);
    }
    assert t != "--" by {
      assert "--"[..1] == "-";
    }
  }

  /** Without options the scan is skipped: every token, `-h` and `--`
      included, is positional, and without a sink they are not
      understood. */
  lemma NoOptions(descs: seq<Descriptor>, validator: Option<Subject -> Reply>, s: Session)
    requires Fits(descs, s) && |descs| == 0 && |s.tokens| > 0
    ensures s.params.Some? ==>
              Parse(descs, validator, s) == Conclude(descs, validator, s.(params := Some(s.tokens), tokens := []))
    ensures s.params.None? ==>
              Parse(descs, validator, s)
              == Finished(ParseError, AppendError(s.(tokens := []), "Don't understand: " + ListRepr(s.tokens)))
  {
  }

  /** A pass that does not shorten the stack changes nothing at all, and
      happens only without a sink: the loop is then at a fixed point. */
  lemma SpinIsFixedPoint(descs: seq<Descriptor>, s: Session)
    requires Fits(descs, s) && |s.tokens| > 0
    requires LoopBody(descs, s).Again? && |LoopBody(descs, s).session.tokens| >= |s.tokens|
    ensures LoopBody(descs, s) == Again(s) && s.params.None?
  {
  }

  /** A pass that goes on keeps a sink. */
  lemma PassKeepsSink(descs: seq<Descriptor>, s: Session)
    requires Fits(descs, s) && |s.tokens| > 0 && LoopBody(descs, s).Again? && s.params.Some?
    ensures LoopBody(descs, s).session.params.Some?
  {
  }

  /** A scan that repeats forever started without a sink. */
  lemma {:induction false} SpinsWithoutSink(descs: seq<Descriptor>, s: Session)
    requires Fits(descs, s) && Scan(descs, s) == Spins
    ensures s.params.None? && |s.tokens| > 0
    decreases |s.tokens|
  {
    var p := LoopBody(descs, s);
    if |p.session.tokens| < |s.tokens| {
      SpinsWithoutSink(descs, p.session);
      if s.params.Some? {
        PassKeepsSink(descs, s);
      }
    } else {
      SpinIsFixedPoint(descs, s);
    }
  }

  /** `_parse` runs forever only when there are options, tokens and no
      positional sink. */
  lemma DivergesOnlyWithoutSink(descs: seq<Descriptor>, validator: Option<Subject -> Reply>, s: Session)
    requires Fits(descs, s) && Parse(descs, validator, s) == Diverges
    ensures |descs| > 0 && |s.tokens| > 0 && s.params.None?
  {
    SpinsWithoutSink(descs, s);
  }

  /** The scan leaves the error list alone unless it returns PARSE_ERROR,
      and then it has appended exactly one message. */
  lemma {:induction false} ScanErrors(descs: seq<Descriptor>, s: Session)
    requires Fits(descs, s)
    ensures var r := Scan(descs, s);
      (r.Scanned? ==> r.session.errors == s.errors) &&
      (r.Returned? ==> r.result in {ShowUsage, ParseError}) &&
      (r.Returned? && r.result == ShowUsage ==> r.session.errors == s.errors) &&
      (r.Returned? && r.result == ParseError ==> exists msg :: r.session.errors == Some(Errors(s.errors) + [msg]))
    decreases |s.tokens|
  {
    if |s.tokens| > 0 {
      var p := LoopBody(descs, s);
      if p.Again? && |p.session.tokens| < |s.tokens| {
        ScanErrors(descs, p.session);
      }
    }
  }

  lemma ConcludeErrors(descs: seq<Descriptor>, validator: Option<Subject -> Reply>, s: Session)
    requires Fits(descs, s)
    ensures var r := Conclude(descs, validator, s);
      (r.result in {ParseError, MissingMandatoryArg} ==> exists msg :: r.session.errors == Some(Errors(s.errors) + [msg])) &&
      (r.result == ParseResult.Success ==> r.session.errors == s.errors) &&
      r.result != ShowUsage
  {
    if |s.tokens| > 0 {
      var msg := "Don't understand: " + ListRepr(s.tokens);
      assert Conclude(descs, validator, s).session.errors == Some(Errors(s.errors) + [msg]);
    } else {
      var missing := MissingKeys(descs, s.states);
      if |missing| != 0 {
        var msg := "Mandatory option(s) not provided: " + ListRepr(missing);
        assert Conclude(descs, validator, s).session.errors == Some(Errors(s.errors) + [msg]);
      } else if validator.Some? {
        var c := Complaint(validator.value, descs, s, 0);
        if c.Some? {
          assert Conclude(descs, validator, s).session.errors == Some(Errors(s.errors) + [c.value]);
        }
      }
    }
  }

  /** A parse error or a missing mandatory option appends exactly one
      message to the error list; success and usage leave it as it was. */
  lemma ErrorsAppendedOnce(descs: seq<Descriptor>, validator: Option<Subject -> Reply>, s: Session)
    requires Fits(descs, s) && Parse(descs, validator, s).Finished?
    ensures var r := Parse(descs, validator, s);
      (r.result in {ParseError, MissingMandatoryArg} ==> exists msg :: r.session.errors == Some(Errors(s.errors) + [msg])) &&
      (r.result in {ParseResult.Success, ShowUsage} ==> r.session.errors == s.errors)
  {
    if |descs| == 0 {
      ConcludeErrors(descs, validator, Drain(s));
    } else {
      ScanErrors(descs, s);
      var sc := Scan(descs, s);
      if sc.Scanned? {
        ConcludeErrors(descs, validator, Drain(sc.session));
      }
    }
  }

  /** The missing-mandatory list is empty exactly when every required
      option is initialized. */
  lemma {:induction false} MissingKeysEmpty(descs: seq<Descriptor>, states: seq<OptState>)
    requires |states| == |descs|
    ensures |MissingKeys(descs, states)| == 0 <==>
            forall i :: 0 <= i < |descs| && IsRequired(descs[i]) ==> states[i].initialized
  {
    if descs != [] {
      var n := |descs| - 1;
      MissingKeysEmpty(descs[..n], states[..n]);
      assert forall i :: 0 <= i < n ==> descs[..n][i] == descs[i] && states[..n][i] == states[i];
    }
  }

  /** Every required option that is not initialized is named in the
      missing-mandatory list. */
  lemma {:induction false} MissingKeysComplete(descs: seq<Descriptor>, states: seq<OptState>, i: nat)
    requires |states| == |descs| && i < |descs| && IsRequired(descs[i]) && !states[i].initialized
    ensures OptionKeys(descs[i]) in MissingKeys(descs, states)
  {
    var n := |descs| - 1;
    if i < n {
      assert descs[..n][i] == descs[i] && states[..n][i] == states[i];
      MissingKeysComplete(descs[..n], states[..n], i);
    }
  }

  /** Only required options that are not initialized are named in the
      missing-mandatory list. */
  lemma {:induction false} MissingKeysSound(descs: seq<Descriptor>, states: seq<OptState>, key: string)
    requires |states| == |descs| && key in MissingKeys(descs, states)
    ensures exists i :: 0 <= i < |descs| && IsRequired(descs[i]) && !states[i].initialized && OptionKeys(descs[i]) == key
  {
    var n := |descs| - 1;
    var last := if IsRequired(descs[n]) && !states[n].initialized then [OptionKeys(descs[n])] else [];
    assert MissingKeys(descs, states) == MissingKeys(descs[..n], states[..n]) + last;
    if key in MissingKeys(descs[..n], states[..n]) {
      MissingKeysSound(descs[..n], states[..n], key);
      var i :| 0 <= i < n && IsRequired(descs[..n][i]) && !states[..n][i].initialized && OptionKeys(descs[..n][i]) == key;
      assert descs[..n][i] == descs[i] && states[..n][i] == states[i];
    } else {
      assert key in last;
    }
  }

  lemma {:induction false} ScanNeverSucceeds(descs: seq<Descriptor>, s: Session)
    requires Fits(descs, s)
    ensures Scan(descs, s).Returned? ==> Scan(descs, s).result != ParseResult.Success
  {
    ScanErrors(descs, s);
  }

  /** SUCCESS means no token is left over and every required option was
      given or defaulted. */
  lemma SuccessMeansComplete(descs: seq<Descriptor>, validator: Option<Subject -> Reply>, s: Session)
    requires Fits(descs, s) && Parse(descs, validator, s).Finished?
    requires Parse(descs, validator, s).result == ParseResult.Success
    ensures var t := Parse(descs, validator, s).session;
      |t.states| == |descs| && t.tokens == [] &&
      forall i :: 0 <= i < |descs| && IsRequired(descs[i]) ==> t.states[i].initialized
  {
    var s' := if |descs| == 0 then s else Scan(descs, s).session;
    if |descs| > 0 {
      ScanNeverSucceeds(descs, s);
    }
    var d := Drain(s');
    assert Parse(descs, validator, s) == Conclude(descs, validator, d);
    MissingKeysEmpty(descs, d.states);
  }

  /** MISSING_MANDATORY_ARG names every required option left uninitialized
      after the scan, and there is at least one. */
  lemma MissingMeansIncomplete(descs: seq<Descriptor>, validator: Option<Subject -> Reply>, s: Session)
    requires Fits(descs, s) && Parse(descs, validator, s).Finished?
    requires Parse(descs, validator, s).result == MissingMandatoryArg
    ensures var t := Parse(descs, validator, s).session;
      |t.states| == |descs| && t.tokens == [] &&
      exists i :: 0 <= i < |descs| && IsRequired(descs[i]) && !t.states[i].initialized
  {
    var s' := if |descs| == 0 then s else Scan(descs, s).session;
    if |descs| > 0 {
      ScanErrors(descs, s);
    }
    var d := Drain(s');
    assert Parse(descs, validator, s) == Conclude(descs, validator, d);
    MissingKeysEmpty(descs, d.states);
  }

  /** The validator is asked about the options in order and then about the
      positional parameters; the first ERROR is the complaint, and there is
      none when every answer is something else. */
  lemma {:induction false} ComplaintFirst(validator: Subject -> Reply, descs: seq<Descriptor>, s: Session, from: nat)
    requires Fits(descs, s) && from <= |descs|
    ensures var c := Complaint(validator, descs, s, from);
      (c.None? <==>
         (forall k :: from <= k < |descs| ==> !validator(OptionSubject(descs[k], s.states[k])).Error?) &&
         !validator(ParamsSubject(s.params)).Error?) &&
      (c.Some? ==>
         (exists k :: from <= k < |descs| && validator(OptionSubject(descs[k], s.states[k])) == Error(c.value) &&
                      forall j :: from <= j < k ==> !validator(OptionSubject(descs[j], s.states[j])).Error?) ||
         ((forall k :: from <= k < |descs| ==> !validator(OptionSubject(descs[k], s.states[k])).Error?) &&
          validator(ParamsSubject(s.params)) == Error(c.value)))
    decreases |descs| - from
  {
    if from < |descs| {
      ComplaintFirst(validator, descs, s, from + 1);
    }
  }
}
