/** What `CmdLine._parse` of pycmdparse/cmdline.py computes, as functions
    on a snapshot of the parser: the options' states, the tokens left on
    the stack, the positional sink and the error list. */
module CmdLineSpec {
  import opened Wrappers
  import opened Strings
  import opened AbstractOpt
  import opened TokenStack
  import opened ParseResultEnum
  import Options

  /** The parser's state between two steps. `params` is `None` when no
      `PositionalParams` object exists, and otherwise holds its `params`;
      `errors` is `parse_errors`. */
  datatype Session = Session(
    states: seq<OptState>,
    tokens: seq<string>,
    params: Option<seq<string>>,
    errors: Option<seq<string>>)

  /** What the validator hook is called with: an option, or the
      `positional_params` field (possibly `None`). */
  datatype Subject = OptionSubject(desc: Descriptor, state: OptState) | ParamsSubject(params: Option<seq<string>>)

  /** The outcome of a whole parse. `Diverges` stands for the run on which
      the scanning loop repeats forever without changing anything. */
  datatype Outcome = Finished(result: ParseResult, session: Session) | Diverges

  predicate Fits(descs: seq<Descriptor>, s: Session) {
    |s.states| == |descs|
  }

  function Errors(e: Option<seq<string>>): seq<string> {
    if e.Some? then e.value else []
  }

  /** `_append_error`: the list is created when missing, then extended. */
  function AppendError(s: Session, msg: string): Session {
    s.(errors := Some(Errors(s.errors) + [msg]))
  }

  /** `_handle_positional_params`: with a sink, every remaining token
      moves into it in order and the stack empties; without one, nothing
      happens. */
  function HandlePositional(s: Session): Session {
    if s.params.Some? then s.(params := Some(s.tokens), tokens := []) else s
  }

  predicate IsHelp(t: string) {
    Lower(t) == "-h" || Lower(t) == "--help"
  }

  function UnsupportedMessage(t: string): string {
    "Unsupported option: '" + t + "'"
  }

  /** Which option, in order, first answers something other than IGNORED. */
  datatype Offered = NoneTaken | Taken(index: nat, step: AcceptStep)

  /** Option `d` recognises the front token: an option-shaped token whose
      dashes stripped give one of its keys. These are the tokens on which
      `accept` does not answer IGNORED. */
  predicate Recognises(d: Descriptor, tokens: seq<string>) {
    |tokens| > 0 && LooksLikeOption(tokens[0]) && Matches(d, tokens[0])
  }

  /** The first option from `from` on that recognises the front token. */
  function FirstClaim(descs: seq<Descriptor>, tokens: seq<string>, from: nat): (r: Option<nat>)
    requires from <= |descs|
    decreases |descs| - from
    ensures r.Some? ==> from <= r.value < |descs| && Recognises(descs[r.value], tokens)
  {
    if from == |descs| then None
    else if Recognises(descs[from], tokens) then Some(from)
    else FirstClaim(descs, tokens, from + 1)
  }

  /** The inner `for` loop of `_parse`: each option is offered the stack in
      turn, and the first whose reply is not IGNORED takes it. */
  function Offer(descs: seq<Descriptor>, states: seq<OptState>, tokens: seq<string>): (r: Offered)
    requires |states| == |descs|
    ensures r.Taken? ==> r.index < |descs| && r.step.reply != Ignored
  {
    match FirstClaim(descs, tokens, 0)
    case None => NoneTaken
    case Some(i) => Taken(i, Options.AcceptSpec(descs[i], states[i], tokens))
  }

  /** How one pass of the `while` loop ends: the parse returns, the loop is
      left with `break`, or the loop condition is checked again. */
  datatype Pass = Stop(result: ParseResult, session: Session) | Leave(session: Session) | Again(session: Session)

  /** A token no option takes: a plain token while no option follows is
      positional, anything else is an unsupported option. */
  function Unclaimed(s: Session): (p: Pass)
    requires |s.tokens| > 0
    ensures p.Again? || p.Stop?
    ensures p.Again? ==> p.session == HandlePositional(s)
    ensures p.Stop? ==> p == Stop(ParseError, AppendError(s, UnsupportedMessage(s.tokens[0])))
  {
    var t := s.tokens[0];
    if !StartsWith(t, "-") && !AnyOption(s.tokens) then Again(HandlePositional(s))
    else Stop(ParseError, AppendError(s, UnsupportedMessage(t)))
  }

  /** Option `i` took the stack with `step`: its state and the stack are
      updated, and an ERROR is recorded and ends the parse. */
  function Claimed(s: Session, i: nat, step: AcceptStep): (p: Pass)
    requires i < |s.states|
    ensures p.Again? || p.Stop?
    ensures p.session.states == s.states[i := step.state] && p.session.tokens == step.tokens
    ensures p.session.params == s.params
    ensures p.Stop? <==> step.reply.Error?
    ensures p.Stop? ==> p.result == ParseError && p.session.errors == Some(Errors(s.errors) + [step.reply.message])
    ensures p.Again? ==> p.session.errors == s.errors
  {
    var s' := s.(states := s.states[i := step.state], tokens := step.tokens);
    if step.reply.Error? then Stop(ParseError, AppendError(s', step.reply.message)) else Again(s')
  }

  /** The options are offered the stack; the first that takes it decides
      the pass. */
  function Dispatch(descs: seq<Descriptor>, s: Session): (p: Pass)
    requires Fits(descs, s) && |s.tokens| > 0
    ensures p.Again? || p.Stop?
  {
    match Offer(descs, s.states, s.tokens)
    case NoneTaken => Unclaimed(s)
    case Taken(i, step) => Claimed(s, i, step)
  }

  /** One pass of the `while` loop of `_parse` on a non-empty stack. */
  function LoopBody(descs: seq<Descriptor>, s: Session): (p: Pass)
    requires Fits(descs, s) && |s.tokens| > 0
    ensures Fits(descs, p.session)
    ensures p.Stop? ==> p.result in {ShowUsage, ParseError}
    ensures p.Stop? && p.result == ShowUsage ==> p.session == s
    ensures p.Stop? && p.result == ParseError ==>
              exists msg :: p.session.errors == Some(Errors(s.errors) + [msg])
    ensures !p.Stop? ==> p.session.errors == s.errors
  {
    var t := s.tokens[0];
    if IsHelp(t) then Stop(ShowUsage, s)
    else if t == "--" then Leave(HandlePositional(s.(tokens := s.tokens[1..])))
    else Dispatch(descs, s)
  }

  /** How the scan ends: it has run to completion with the session given,
      it has returned a result, or it repeats forever. */
  datatype Scanned = Scanned(session: Session) | Returned(result: ParseResult, session: Session) | Spins

  /** The `while` loop of `_parse`, pass after pass. A pass that leaves the
      stack as long as it was (the loop then makes no progress ever) is
      reported as `Spins`. */
  function Scan(descs: seq<Descriptor>, s: Session): (r: Scanned)
    requires Fits(descs, s)
    decreases |s.tokens|
    ensures r.Scanned? ==> Fits(descs, r.session)
    ensures r.Returned? ==> Fits(descs, r.session)
  {
    if |s.tokens| == 0 then Scanned(s)
    else
      match LoopBody(descs, s)
      case Stop(res, s') => Returned(res, s')
      case Leave(s') => Scanned(s')
      case Again(s') => if |s'.tokens| < |s.tokens| then Scan(descs, s') else Spins
  }

  /** The required options that are not initialized, by their
      `option_keys`, in order. */
  function MissingKeys(descs: seq<Descriptor>, states: seq<OptState>): (keys: seq<string>)
    requires |states| == |descs|
    ensures |keys| <= |descs|
  {
    if descs == [] then []
    else
      var n := |descs| - 1;
      MissingKeys(descs[..n], states[..n])
      + (if IsRequired(descs[n]) && !states[n].initialized then [OptionKeys(descs[n])] else [])
  }

  /** The message of the first ERROR the validator answers for the
      options in order, and then for the positional parameters. */
  function Complaint(validator: Subject -> Reply, descs: seq<Descriptor>, s: Session, from: nat): (m: Option<string>)
    requires Fits(descs, s) && from <= |descs|
    decreases |descs| - from
  {
    if from == |descs| then
      var reply := validator(ParamsSubject(s.params));
      if reply.Error? then Some(reply.message) else None
    else
      var reply := validator(OptionSubject(descs[from], s.states[from]));
      if reply.Error? then Some(reply.message) else Complaint(validator, descs, s, from + 1)
  }

  /** The validator sees the options' states and the positional
      parameters only. */
  lemma {:induction false} ComplaintSees(validator: Subject -> Reply, descs: seq<Descriptor>, s: Session, t: Session, from: nat)
    requires Fits(descs, s) && from <= |descs| && s.states == t.states && s.params == t.params
    ensures Complaint(validator, descs, s, from) == Complaint(validator, descs, t, from)
    decreases |descs| - from
  {
    if from < |descs| {
      ComplaintSees(validator, descs, s, t, from + 1);
    }
  }

  /** The first step after the scan: leftover tokens go to the sink when
      there is one. */
  function Drain(s: Session): (r: Session)
    ensures r.states == s.states && r.errors == s.errors
    ensures r.tokens == [] || r == s
    ensures s.params.Some? ==> r.tokens == []
  {
    if |s.tokens| > 0 then HandlePositional(s) else s
  }

  /** The rest of `_parse` after the leftover tokens are sunk: tokens that
      are still there are not understood, then the mandatory check, then
      the validator. */
  function Conclude(descs: seq<Descriptor>, validator: Option<Subject -> Reply>, s: Session): (r: Outcome)
    requires Fits(descs, s)
    ensures r.Finished?
  {
    if |s.tokens| > 0 then
      Finished(ParseError, AppendError(s.(tokens := []), "Don't understand: " + ListRepr(s.tokens)))
    else
      var missing := MissingKeys(descs, s.states);
      if |missing| != 0 then
        Finished(MissingMandatoryArg, AppendError(s, "Mandatory option(s) not provided: " + ListRepr(missing)))
      else if validator.Some? then
        match Complaint(validator.value, descs, s, 0)
        case Some(msg) => Finished(ParseError, AppendError(s, msg))
        case None => Finished(ParseResult.Success, s)
      else Finished(ParseResult.Success, s)
  }

  /** `_parse` from line 215 on. */
  function Finish(descs: seq<Descriptor>, validator: Option<Subject -> Reply>, s: Session): (r: Outcome)
    requires Fits(descs, s)
    ensures r.Finished?
  {
    Conclude(descs, validator, Drain(s))
  }

  /** `_parse`: the scan runs only when there is at least one option. */
  function Parse(descs: seq<Descriptor>, validator: Option<Subject -> Reply>, s: Session): (r: Outcome)
    requires Fits(descs, s)
  {
    if |descs| == 0 then Finish(descs, validator, s)
    else
      match Scan(descs, s)
      case Scanned(s') => Finish(descs, validator, s')
      case Returned(res, s') => Finished(res, s')
      case Spins => Diverges
  }
}
