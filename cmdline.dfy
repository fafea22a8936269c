/** `CmdLine` of pycmdparse/cmdline.py: the parser's fields and the
    methods that scan a token stack against the supported options. */
module Parser {
  import opened Wrappers
  import opened Strings
  import opened AbstractOpt
  import opened TokenStack
  import opened ParseResultEnum
  import opened Options
  import opened CmdLineSpec

  /** An option category: its name and its options in declaration order. */
  datatype Category = Category(name: Option<string>, options: seq<Opt>)

  /** A usage example: a command line and what it does. */
  datatype UsageExample = UsageExample(example: Option<string>, explanation: Option<string>)

  /** The options of all categories, category after category, each in
      declaration order. */
  function Concat(cats: seq<Category>): seq<Opt>
  {
    if cats == [] then [] else Concat(cats[..|cats| - 1]) + cats[|cats| - 1].options
  }

  /** The flattened options are exactly the options of the categories. */
  lemma {:induction false} ConcatMembers(cats: seq<Category>, o: Opt)
    ensures o in Concat(cats) <==> exists c :: 0 <= c < |cats| && o in cats[c].options
  {
    if cats != [] {
      var n := |cats| - 1;
      ConcatMembers(cats[..n], o);
      assert forall c :: 0 <= c < n ==> cats[..n][c] == cats[c];
      if o in cats[n].options {
        assert o in Concat(cats);
      }
    }
  }

  /** Flattening keeps the categories in order: the options of a longer
      list of categories extend those of a shorter one. */
  lemma {:induction false} ConcatAppend(a: seq<Category>, b: seq<Category>)
    ensures Concat(a + b) == Concat(a) + Concat(b)
    decreases |b|
  {
    if b == [] {
      assert a + b == a;
    } else {
      var n := |b| - 1;
      assert (a + b)[..|a + b| - 1] == a + b[..n];
      ConcatAppend(a, b[..n]);
    }
  }

  /** `_flatten` as a function: no categories means no options. */
  function FlattenSpec(cats: Option<seq<Category>>): seq<Opt> {
    if cats.Some? then Concat(cats.value) else []
  }

  function Descs(opts: seq<Opt>): (r: seq<Descriptor>)
    ensures |r| == |opts| && forall i :: 0 <= i < |opts| ==> r[i] == opts[i].desc
  {
    seq(|opts|, i requires 0 <= i < |opts| => opts[i].desc)
  }

  function States(opts: seq<Opt>): (r: seq<OptState>)
    reads opts
    ensures |r| == |opts| && forall i :: 0 <= i < |opts| ==> r[i] == opts[i].State()
  {
    seq(|opts|, i reads opts requires 0 <= i < |opts| => opts[i].State())
  }

  lemma StatesAre(opts: seq<Opt>, states: seq<OptState>)
    requires |states| == |opts| && forall j :: 0 <= j < |opts| ==> opts[j].State() == states[j]
    ensures States(opts) == states
  {
  }

  /** No option object appears twice. */
  predicate Distinct(opts: seq<Opt>) {
    forall i, j :: 0 <= i < j < |opts| ==> opts[i] != opts[j]
  }

  lemma DistinctOthers(opts: seq<Opt>, i: nat)
    requires Distinct(opts) && i < |opts|
    ensures forall j :: 0 <= j < |opts| && j != i ==> opts[j] != opts[i]
  {
  }

  /** What a pass of the scanning loop tells the loop to do: the
      `CmdLineSpec.Pass` of that pass without its session, since the
      method leaves the session in the parser's fields, the options and
      the stack. `Seal` puts the two back together. */
  datatype Move = MStop(result: ParseResult) | MLeave | MAgain

  function Seal(m: Move, s: Session): Pass {
    match m
    case MStop(res) => Stop(res, s)
    case MLeave => Leave(s)
    case MAgain => Again(s)
  }

  /** How the scanning loop ends: `_parse` returns a result, the loop is
      over, or it would repeat forever. This is `CmdLineSpec.Scanned`
      without its session, which `Close` restores from the parser's
      state. */
  datatype Ending = Answered(result: ParseResult) | Drained | Spun

  function Close(e: Ending, s: Session): Scanned {
    match e
    case Answered(res) => Returned(res, s)
    case Drained => Scanned(s)
    case Spun => Spins
  }

  class CmdLine {
    var yamlDef: Option<string>
    var validator: Option<Subject -> Reply>
    var programName: Option<string>
    var summary: Option<string>
    var usage: Option<string>
    /** `None` when there is no `PositionalParams` object; otherwise its
        `params`. */
    var positionalParams: Option<seq<string>>
    var supportedOptions: Option<seq<Category>>
    var details: Option<string>
    var examples: Option<seq<UsageExample>>
    var addendum: Option<string>
    var parseErrors: Option<seq<string>>

    /** The parser state `_parse` works on, for the options `opts`. */
    function Snapshot(opts: seq<Opt>, stack: Stack): Session
      reads this, stack, opts
    {
      Session(States(opts), stack.Contents(), positionalParams, parseErrors)
    }

    constructor()
      ensures yamlDef.None? && validator.None? && programName.None? && summary.None? && usage.None?
      ensures positionalParams.None? && supportedOptions.None? && details.None? && examples.None?
      ensures addendum.None? && parseErrors.None?
    {
      yamlDef, validator, programName, summary, usage := None, None, None, None, None;
      positionalParams, supportedOptions, details, examples := None, None, None, None;
      addendum, parseErrors := None, None;
    }

    /** `reset`: every field back to `None`. */
    method Reset()
      modifies this
      ensures yamlDef.None? && validator.None? && programName.None? && summary.None? && usage.None?
      ensures positionalParams.None? && supportedOptions.None? && details.None? && examples.None?
      ensures addendum.None? && parseErrors.None?
    {
      positionalParams := None;
      supportedOptions := None;
      validator := None;
      details := None;
      addendum := None;
      examples := None;
      usage := None;
      summary := None;
      programName := None;
      parseErrors := None;
      yamlDef := None;
    }

    /** `_flatten`: the options of every category, extended in turn. */
    static method Flatten(cats: Option<seq<Category>>) returns (r: seq<Opt>)
      ensures r == FlattenSpec(cats)
    {
      r := [];
      if cats.Some? {
        var i := 0;
        while i < |cats.value|
          invariant 0 <= i <= |cats.value|
          invariant r == Concat(cats.value[..i])
        {
          assert cats.value[..i + 1][..i] == cats.value[..i];
          r := r + cats.value[i].options;
          i := i + 1;
        }
        assert cats.value[..i] == cats.value;
      }
    }

    /** `get_option`: the first option, in flattened order, whose name is
        `name`; `None` when there is none. */
    method GetOption(name: Option<string>) returns (r: Option<Opt>)
      ensures var opts := FlattenSpec(supportedOptions);
        r.Some? ==> exists k :: 0 <= k < |opts| && opts[k] == r.value && r.value.desc.name == name &&
                                forall j :: 0 <= j < k ==> opts[j].desc.name != name
      ensures var opts := FlattenSpec(supportedOptions);
        r.None? ==> forall k :: 0 <= k < |opts| ==> opts[k].desc.name != name
    {
      var opts := Flatten(supportedOptions);
      var i := 0;
      while i < |opts|
        invariant 0 <= i <= |opts|
        invariant forall j :: 0 <= j < i ==> opts[j].desc.name != name
      {
        if opts[i].desc.name == name {
          return Some(opts[i]);
        }
        i := i + 1;
      }
      return None;
    }

    /** `_append_error`. */
    method AppendError(msg: string)
      modifies this`parseErrors
      ensures parseErrors == Some(Errors(old(parseErrors)) + [msg])
    {
      if parseErrors.None? {
        parseErrors := Some([]);
      }
      parseErrors := Some(parseErrors.value + [msg]);
    }

    /** `_handle_positional_params`. */
    method HandlePositionalParams(stack: Stack)
      modifies this`positionalParams, stack
      ensures old(positionalParams).Some? ==> positionalParams == Some(old(stack.Contents())) && stack.Contents() == []
      ensures old(positionalParams).None? ==> positionalParams.None? && stack.Contents() == old(stack.Contents())
    {
      if positionalParams.Some? {
        var all := stack.PopAll();
        positionalParams := Some(all);
      }
    }

    /** The inner `for` loop of `_parse`: the options are offered the
        stack in order until one does not ignore it. */
    method TryOptions(opts: seq<Opt>, stack: Stack) returns (taken: Option<nat>, reply: Reply)
      requires Distinct(opts)
      modifies stack, opts
      ensures match Offer(Descs(opts), old(States(opts)), old(stack.Contents()))
        case NoneTaken =>
          taken.None? && States(opts) == old(States(opts)) && stack.Contents() == old(stack.Contents())
        case Taken(i, step) =>
          taken == Some(i) && i < |opts| && reply == step.reply &&
          States(opts) == old(States(opts))[i := step.state] && stack.Contents() == step.tokens
    {
      ghost var descs, states, tokens := Descs(opts), States(opts), stack.Contents();
      var i := 0;
      while i < |opts|
        invariant 0 <= i <= |opts|
        invariant forall j :: 0 <= j < |opts| ==> opts[j].State() == states[j]
        invariant stack.Contents() == tokens
        invariant FirstClaim(descs, tokens, 0) == FirstClaim(descs, tokens, i)
      {
        var o := opts[i];
        DistinctOthers(opts, i);
        var rep := o.Accept(stack);
        assert forall j :: 0 <= j < |opts| && j != i ==> opts[j].State() == states[j];
        if rep != Ignored {
          StatesAre(opts, states[i := opts[i].State()]);
          return Some(i), rep;
        }
        i := i + 1;
      }
      StatesAre(opts, states);
      return None, Ignored;
    }

    /** One pass of the `while` loop of `_parse`. */
    method Pass(opts: seq<Opt>, stack: Stack) returns (m: Move)
      requires Distinct(opts) && stack.Contents() != []
      modifies this`positionalParams, this`parseErrors, stack, opts
      ensures LoopBody(Descs(opts), old(Snapshot(opts, stack))) == Seal(m, Snapshot(opts, stack))
    {
      var top := stack.Peek();
      if Lower(top) == "-h" || Lower(top) == "--help" {
        return MStop(ShowUsage);
      }
      if top == "--" {
        var _ := stack.Pop();
        HandlePositionalParams(stack);
        return MLeave;
      }
      m := DispatchPass(opts, stack);
    }

    /** The part of a pass that offers the stack to the options. */
    method DispatchPass(opts: seq<Opt>, stack: Stack) returns (m: Move)
      requires Distinct(opts) && stack.Contents() != []
      modifies this`positionalParams, this`parseErrors, stack, opts
      ensures Dispatch(Descs(opts), old(Snapshot(opts, stack))) == Seal(m, Snapshot(opts, stack))
    {
      var top := stack.Peek();
      ghost var s0 := Snapshot(opts, stack);
      var taken, reply := TryOptions(opts, stack);
      if taken.None? {
        assert Snapshot(opts, stack) == s0;
        m := UnclaimedPass(opts, stack, top);
      } else {
        ghost var step := Offer(Descs(opts), s0.states, s0.tokens).step;
        m := ClaimedPass(opts, stack, s0, taken.value, step, reply);
      }
    }

    /** Option `i` took the stack with `step`, whose reply is `reply`: an
        ERROR is recorded and ends the loop. */
    method ClaimedPass(opts: seq<Opt>, stack: Stack, ghost s0: Session, ghost i: nat, ghost step: AcceptStep,
                       reply: Reply) returns (m: Move)
      requires i < |s0.states| && reply == step.reply
      requires Snapshot(opts, stack) == s0.(states := s0.states[i := step.state], tokens := step.tokens)
      modifies this`parseErrors
      ensures Claimed(s0, i, step) == Seal(m, Snapshot(opts, stack))
    {
      m := MAgain;
      if reply.Error? {
        AppendError(reply.message);
        m := MStop(ParseError);
      }
    }

    /** No option takes the stack, whose front token is `top`. */
    method UnclaimedPass(opts: seq<Opt>, stack: Stack, top: string) returns (m: Move)
      requires stack.Contents() != [] && top == stack.Contents()[0]
      modifies this`positionalParams, this`parseErrors, stack
      ensures Unclaimed(old(Snapshot(opts, stack))) == Seal(m, Snapshot(opts, stack))
    {
      if !StartsWith(top, "-") {
        var more := stack.HasOptions();
        if !more {
          HandlePositionalParams(stack);
          return MAgain;
        }
      }
      AppendError(UnsupportedMessage(top));
      return MStop(ParseError);
    }

    /** The `option_keys` of the required options that are not
        initialized, in order. */
    method MissingOptionKeys(opts: seq<Opt>) returns (keys: seq<string>)
      ensures keys == MissingKeys(Descs(opts), States(opts))
    {
      ghost var descs, states := Descs(opts), States(opts);
      keys := [];
      var i := 0;
      while i < |opts|
        invariant 0 <= i <= |opts|
        invariant keys == MissingKeys(descs[..i], states[..i])
      {
        assert descs[..i + 1][..i] == descs[..i] && states[..i + 1][..i] == states[..i];
        if opts[i].desc.required == Some(true) && !opts[i].initialized {
          keys := keys + [OptionKeys(opts[i].desc)];
        }
        i := i + 1;
      }
      assert descs[..i] == descs && states[..i] == states;
    }

    /** The validator loop of `_parse`: each option in order, then the
        positional parameters; the first ERROR's message is returned. */
    method RunValidator(opts: seq<Opt>, check: Subject -> Reply) returns (complaint: Option<string>)
      ensures complaint == Complaint(check, Descs(opts), Session(States(opts), [], positionalParams, None), 0)
    {
      ghost var s := Session(States(opts), [], positionalParams, None);
      var i := 0;
      while i < |opts|
        invariant 0 <= i <= |opts|
        invariant Complaint(check, Descs(opts), s, 0) == Complaint(check, Descs(opts), s, i)
      {
        var reply := check(OptionSubject(opts[i].desc, opts[i].State()));
        if reply.Error? {
          return Some(reply.message);
        }
        i := i + 1;
      }
      var reply := check(ParamsSubject(positionalParams));
      if reply.Error? {
        return Some(reply.message);
      }
      return None;
    }

    /** `_parse` after the scanning loop. */
    method FinishParse(opts: seq<Opt>, stack: Stack) returns (r: ParseResult)
      modifies this`positionalParams, this`parseErrors, stack
      ensures Finish(Descs(opts), validator, old(Snapshot(opts, stack))) == Finished(r, Snapshot(opts, stack))
    {
      var n := stack.Size();
      if n > 0 {
        HandlePositionalParams(stack);
      }
      assert Snapshot(opts, stack) == Drain(old(Snapshot(opts, stack)));
      r := ConcludeParse(opts, stack);
    }

    /** The leftover, mandatory and validator checks of `_parse`. */
    method ConcludeParse(opts: seq<Opt>, stack: Stack) returns (r: ParseResult)
      modifies this`parseErrors, stack
      ensures Conclude(Descs(opts), validator, old(Snapshot(opts, stack))) == Finished(r, Snapshot(opts, stack))
    {
      var n := stack.Size();
      if n > 0 {
        var rest := stack.PopAll();
        AppendError("Don't understand: " + ListRepr(rest));
        return ParseError;
      }
      r := CheckParse(opts, stack);
    }

    /** The mandatory and validator checks of `_parse`, on an empty stack. */
    method CheckParse(opts: seq<Opt>, stack: Stack) returns (r: ParseResult)
      requires stack.Contents() == []
      modifies this`parseErrors
      ensures Conclude(Descs(opts), validator, old(Snapshot(opts, stack))) == Finished(r, Snapshot(opts, stack))
    {
      var missing := MissingOptionKeys(opts);
      if |missing| != 0 {
        AppendError("Mandatory option(s) not provided: " + ListRepr(missing));
        return MissingMandatoryArg;
      }
      if validator.Some? {
        var complaint := RunValidator(opts, validator.value);
        ComplaintSees(validator.value, Descs(opts), Session(States(opts), [], positionalParams, None),
                      Snapshot(opts, stack), 0);
        if complaint.Some? {
          AppendError(complaint.value);
          return ParseError;
        }
      }
      return ParseResult.Success;
    }

    /** The `while` loop of `_parse`. Where the source's loop would repeat
        forever (a pass that leaves the stack as long as it was), the
        loop stops with `Spun`. */
    method ScanPasses(opts: seq<Opt>, stack: Stack) returns (e: Ending)
      requires Distinct(opts)
      modifies this`positionalParams, this`parseErrors, stack, opts
      ensures Scan(Descs(opts), old(Snapshot(opts, stack))) == Close(e, Snapshot(opts, stack))
    {
      ghost var descs := Descs(opts);
      ghost var target := Scan(descs, Snapshot(opts, stack));
      var size := stack.Size();
      while size > 0
        invariant size == |stack.Contents()|
        invariant Scan(descs, Snapshot(opts, stack)) == target
        decreases size
      {
        var m := Pass(opts, stack);
        match m {
          case MStop(res) =>
            return Answered(res);
          case MLeave =>
            return Drained;
          case MAgain =>
            var size' := stack.Size();
            if size' >= size {
              return Spun;
            }
            size := size';
        }
      }
      return Drained;
    }

    /** `_parse`. Where the source's loop would repeat forever, the result
        is `None`. */
    method Parse(stack: Stack) returns (r: Option<ParseResult>)
      requires Distinct(FlattenSpec(supportedOptions))
      modifies this`positionalParams, this`parseErrors, stack, FlattenSpec(supportedOptions)
      ensures var opts := FlattenSpec(supportedOptions);
        CmdLineSpec.Parse(Descs(opts), validator, old(Snapshot(opts, stack)))
        == (if r.Some? then Finished(r.value, Snapshot(opts, stack)) else Diverges)
    {
      var opts := Flatten(supportedOptions);
      assert Snapshot(opts, stack) == old(Snapshot(opts, stack));
      if |opts| > 0 {
        var e := ScanPasses(opts, stack);
        match e {
          case Answered(res) =>
            return Some(res);
          case Spun =>
            return None;
          case Drained =>
        }
      }
      var res := FinishParse(opts, stack);
      return Some(res);
    }
  }
}
