# pycmdparse parsing engine in Dafny

pycmdparse is a Python library that reads a YAML description of a command
line and then parses an argument list against it. This project models
the library's parsing engine and proves the properties the code promises:

- **The token stack.** A Python list stored reversed, so the left-most
  argument is on top and is popped first.
- **The list splitter.** It expands bundled short flags (`-cvf`,
  `-cvf=foo`) and splits `--key=value` at the first `=`. Everything from
  `--` on is copied verbatim.
- **The four option classes:**
  - `BoolOpt` takes no value.
  - `ParamOpt` and `ParamOptDEPRECATED` take one value.
  - `MultiParamOpt` takes a list of values under the EXACTLY, AT_MOST or
    NO_LIMIT policy.
  - The shared class `AbstractOpt` provides key recognition, duplicate
    detection, and coercion to int, decimal or date.
- **The dispatcher `CmdLine._parse`.** Each pass of its loop does one of
  these:
  - stops for help;
  - hands the tokens after `--` to the positional sink;
  - offers the front of the stack to each option in declaration order;
  - reports an unsupported option.

  After the loop it reports leftover tokens, checks that the mandatory
  options were given, and runs the user's validator hook.
- **The option factory** and the three enums' `fromstr`/`tostr`
  conversions.
- **Three formatting helpers of `ShowInfo`:** `_fixed`,
  `_prepend_required` and `_calc_left_len`.

The modules follow the source files: one module per file, plus
`CmdLineSpec` and `CmdLineLemmas` for the dispatcher.

Code that changes state is modelled by imperative Dafny:

- `TokenStack.Stack` holds its list as a `seq`.
- `Options.Opt` has the `_supplied_key`, `_value` and `_initialized`
  fields and the `accept`/`_do_accept` methods.
- `Parser.CmdLine` has the parser's fields and the `_parse` loop.
- The loops of the splitter and of `_calc_left_len` are methods.

Each method's `ensures` ties its result and the new state to a pure
function applied to the old state. Examples:

- `Opt.Accept` is tied to `Options.AcceptSpec`.
- `CmdLine.Parse` is tied to `CmdLineSpec.Parse`.
- `SplitList` is tied to `Splitter.Split`.

The source's promises are then proved as lemmas about those functions.

`_parse` has one run on which it loops forever. This happens when all of
these hold:

- a plain token is in front;
- no token left starts with a dash;
- no positional sink exists.

The model reports that run as the outcome `Diverges`, and the method
`CmdLine.Parse` returns `None` for it. It proves this is the only way the
parse fails to finish (`DivergesOnlyWithoutSink`). It also proves that a
pass which makes no progress changes nothing (`SpinIsFixedPoint`).

Where the code and its documentation disagree, the model follows the
code:

- **`_handle_short_form`.** Its docstring says `-cvf=` yields a trailing
  `None`. The code adds nothing (`ShortBundleValue`).
- **`_handle_long_form`.** Its docstring says `--foo=` yields `None`. The
  code keeps the empty string, because `"".isspace()` is false
  (`LongFormBlankValues`).
- **Option defaults.** The test suite expects defaults to apply to
  optional options. The constructor stores a default only for a required
  option (`BaseState`).
- **Repeated options.** The tests expect a multi-value option to accept
  repeats. `accept` rejects every second occurrence of a key
  (`SecondOccurrenceRejected`).
- **The factory.** `OptFactory._new_option` passes `multi_type` and
  `count` to `ParamOpt`. Those are the arguments of `MultiParamOpt`, so a
  `param` option is modelled as the multi-value variant (`NewOption`).
  `ParamOpt` is kept as the single-value class.

## Model

| member | source | states |
|---|---|---|
| TokenStack.Stack.constructor | pycmdparse/stack.py:6-18 | The stack holds the given list with its left-most item on top. `None` gives the empty stack. |
| TokenStack.Stack.IsEmpty | pycmdparse/stack.py:23-24 | True exactly when no token remains. |
| TokenStack.Stack.Push | pycmdparse/stack.py:26-27 | The pushed item becomes the new top, ahead of the old contents. |
| TokenStack.Stack.Pop | pycmdparse/stack.py:29-30 | Returns the top token and leaves the rest. It requires a non-empty stack, as Python raises on an empty list. |
| TokenStack.Stack.Peek | pycmdparse/stack.py:32-33 | Returns the top token without changing the stack. It requires a non-empty stack. |
| TokenStack.Stack.Size | pycmdparse/stack.py:35-36 | The number of remaining tokens. |
| TokenStack.Stack.PopAll | pycmdparse/stack.py:38-42 | Returns exactly the remaining tokens in command-line order and leaves the stack empty. |
| TokenStack.Stack.HasOptions | pycmdparse/stack.py:44-52 | True exactly when some remaining token starts with `-`. The stack is not changed. |
| TokenStack.PushThenPop | pycmdparse/stack.py:26-33 | Push then pop hands back the pushed token and restores the previous contents. |
| Splitter.LongForm | pycmdparse/splitter.py:104-107 | One token when there is no `=`. Otherwise a split at the first `=`, with a whitespace-only value replaced by `None`. |
| Splitter.HandleShortForm | pycmdparse/splitter.py:75-84 | Fails with "Invalid: X" exactly when the element has at most one character. Otherwise the loop's tokens are `Splitter.ShortForm`: a `-c` per character up to the first `=`, then the rest as one token. |
| Splitter.HandleLongForm | pycmdparse/splitter.py:101-107 | Fails with "Invalid: X" exactly when the element has at most two characters. Otherwise the result is `LongForm`. |
| Splitter.SplitElement | pycmdparse/splitter.py:50-55 | For a token before `--`, the tokens appended (or the error raised) are the head of the whole split of the list that starts with it. |
| Splitter.SplitList | pycmdparse/splitter.py:44-56 | The loop with its `in_positional_params` flag produces exactly `Splitter.Split` of the input. |
| SplitterProperties.SplitAppend | pycmdparse/splitter.py:46-56 | Before any `--`, the split of a concatenation is the first split followed by the second. So order is kept, and the first bad token decides the failure. |
| SplitterProperties.SentinelVerbatim | pycmdparse/splitter.py:47-49 | From `--` on, every token comes out verbatim and in order. |
| SplitterProperties.ValuesUnchanged | pycmdparse/splitter.py:50-51 | Tokens not starting with a dash pass through unchanged. |
| SplitterProperties.SplitFailsIff | pycmdparse/splitter.py:46-56 | Splitting fails exactly when some token before any `--` is empty (`token[0]` raises) or a bare `-`. So the long-form length guard never fires. |
| SplitterProperties.ShortBundleFlags | pycmdparse/splitter.py:78-84 | A bundle without `=` gives one `-c` token per character: `len - 1` tokens. |
| SplitterProperties.ShortBundleValue | pycmdparse/splitter.py:79-82 | The text after the first `=` is one extra token and is never split into flags. A trailing bare `=` adds nothing. |
| SplitterProperties.BundleWithValue | pycmdparse/splitter.py:78-84 | `-abc=foo` splits into `-a`, `-b`, `-c`, `foo`. |
| SplitterProperties.LongFormFirstEquals | pycmdparse/splitter.py:104 | `--foo=bar=baz` gives `--foo`, `bar=baz`, and `--foo` stays one token. |
| SplitterProperties.LongFormBlankValues | pycmdparse/splitter.py:104-106 | `--foo=` keeps the empty value. `--foo= ` gives `None`. |
| Strings.LStripDashes | pycmdparse/abstract_opt.py:178 | The result is a suffix of the input that does not start with `-`. Only dashes were removed. |
| Strings.Lower | pycmdparse/cmdline.py:190 | The same length, with each ASCII capital lowered and every other character kept. |
| AbstractOpt.BaseState | pycmdparse/abstract_opt.py:48-54 | No key is recorded. The option is initialized, holding the default, exactly when it is required and the default is not None. Otherwise it holds None. |
| AbstractOpt.OptionKeys | pycmdparse/abstract_opt.py:152-158 | The concatenation, with `/` only between two keys, equals the existing key forms `-s`, `--long` joined by `/`. |
| AbstractOpt.KeysAndHint | pycmdparse/abstract_opt.py:87-95 | The concatenation, with `, ` only between two keys, equals the existing key forms joined by `, `, then ` <hint>` when there is a hint. |
| AbstractOpt.KeyFormsMatch | pycmdparse/abstract_opt.py:174-178 | `-k` and `--k` both match an option with key `k`. Both pass the shape test exactly when `k` starts with a word character. |
| AbstractOpt.NotOptionShaped | pycmdparse/abstract_opt.py:174 | `---x`, a lone `-` and plain words never look like options. |
| Coercion.ParseIntOfString | pycmdparse/abstract_opt.py:197 | `int(str(i)) == i` for every integer. |
| Coercion.ValidateIntText | pycmdparse/abstract_opt.py:195-199 | Coercing the text of an integer to INT gives that integer. |
| Coercion.Validate | pycmdparse/abstract_opt.py:195-210 | Any converted value has the requested type: INT an int, DECIMAL a decimal, DATE an existing calendar date. BOOL, which has no branch, never converts. |
| Coercion.MatchShape | pycmdparse/abstract_opt.py:224-230 | A match has three digit fields within the regex's widths and two separators among `-`, `/`, `.`. |
| Coercion.MatchShapeParts | pycmdparse/abstract_opt.py:224-230 | A matched shape is the whole text: the fields and separators in order, then an optional final line feed that `$` lets through. |
| Coercion.ShapeOf | pycmdparse/abstract_opt.py:224-230 | On fields joined by separators, the regex matches exactly when the field widths fit. |
| Coercion.Strptime | pycmdparse/abstract_opt.py:231-233 | A returned date exists in the calendar and has a four-digit year. |
| Coercion.ParseDate | pycmdparse/abstract_opt.py:223-234 | Any returned date exists in the calendar. |
| Coercion.YearFirst | pycmdparse/abstract_opt.py:223-234 | Year, month, day with any two separators gives that date when it exists, and is rejected otherwise. |
| Coercion.MonthFirst | pycmdparse/abstract_opt.py:223-234 | Month, day, year gives that date when it exists, and is rejected otherwise. The year-first shape cannot match it. |
| Coercion.ShortYearRejected | pycmdparse/abstract_opt.py:223-234 | A two- or three-digit year passes the year-first regex but is rejected by `%Y`. The month-first shape is never tried. |
| Coercion.TrailingNewlineRejected | pycmdparse/abstract_opt.py:224-233 | Text ending in a line feed never gives a date. |
| Options.InitialState | pycmdparse/abstract_opt.py:48-54 | A new option records no key. BoolOpt and ParamOpt start in the base state and MultiParamOpt with an empty list. Only ParamOptDEPRECATED can raise. |
| Options.PublicValue | pycmdparse/bool_opt.py:29-31 | The `value` property: False for a BoolOpt holding nothing, and the stored value otherwise. |
| Options.DoAcceptSpec | pycmdparse/abstract_opt.py:181 | Each subclass's `_do_accept` never answers IGNORED and only pops tokens. On ACCEPTED it popped at least one token and recorded the key. |
| Options.AcceptSpec | pycmdparse/abstract_opt.py:172-182 | IGNORED exactly when the stack is empty, or the front is not one or two dashes then a word character, or it matches neither key. IGNORED and the duplicate ERROR leave state and stack alone. |
| Options.InitialCoherent | pycmdparse/multiparam_opt.py:64 | A new option holds a value of its kind: a BoolOpt nothing or a boolean, a MultiParamOpt a list within its count. |
| Options.AcceptPreservesCoherent | pycmdparse/multiparam_opt.py:74-80 | `accept` keeps that invariant. In particular, EXACTLY and AT_MOST never capture more than `count` values. |
| Options.SecondOccurrenceRejected | pycmdparse/abstract_opt.py:178-180 | After ACCEPTED, the same key in either dash form gives ERROR "Duplicate option specified on the command line: X" and leaves the stack alone. |
| Options.Opt.constructor | pycmdparse/abstract_opt.py:48-54 | The state is `BaseState`, or `MultiParamOpt.InitialState` for a multi-value option. |
| Options.Opt.Create | pycmdparse/param_opt_deprecated.py:12-18 | Builds an option in the state `Options.InitialState` gives, or raises its message. |
| Options.Opt.HandleDataType | pycmdparse/param_opt_deprecated.py:46-51 | The answer and new state are `ParamOptDeprecated.HandleDataType` of the old state. |
| Options.Opt.Accept | pycmdparse/abstract_opt.py:172-182 | The reply, new option state and new stack are `Options.AcceptSpec` of the old ones. |
| Options.Opt.DoAcceptBool | pycmdparse/bool_opt.py:42-44 | The reply, state and stack are `BoolOpt.DoAccept` of the old ones. |
| Options.Opt.DoAcceptParam | pycmdparse/param_opt.py:20-32 | The reply, state and stack are `ParamOpt.DoAccept` of the old ones. |
| Options.Opt.CaptureValues | pycmdparse/multiparam_opt.py:74-80 | Pops exactly the `MultiParamOpt.Taken` front tokens, appends them in order, and leaves the rest on the stack. |
| Options.Opt.ConvertValues | pycmdparse/multiparam_opt.py:86-92 | The in-place conversion loop ends with `MultiParamOpt.Coerce`'s list and reports its failing index. |
| Options.Opt.Settle | pycmdparse/multiparam_opt.py:82-94 | The count check and conversion give `MultiParamOpt.Settle`'s reply and state. |
| Options.Opt.DoAcceptMulti | pycmdparse/multiparam_opt.py:70-94 | The reply, state and stack are `MultiParamOpt.DoAccept` of the old ones. |
| BoolOpt.Make | pycmdparse/bool_opt.py:24-26 | A BoolOpt's default is always False and its data type BOOL. The other arguments are kept. |
| BoolOpt.PublicValue | pycmdparse/bool_opt.py:30-31 | False while nothing is stored, otherwise the stored value. |
| BoolOpt.DoAccept | pycmdparse/bool_opt.py:42-44 | Always ACCEPTED. It pops only the key, which it records, and stores True. |
| BoolOpt.ValueFlips | pycmdparse/bool_opt.py:30-44 | False before acceptance and True after. A following value-like token stays on the stack. |
| BoolOpt.RequiredIsInitialized | pycmdparse/bool_opt.py:24-26 | A BoolOpt is initialized from the start exactly when it is required. So it is never reported missing. |
| ParamOpt.DoAccept | pycmdparse/param_opt.py:20-32 | Fewer than two tokens: ERROR "requires a value" with nothing changed. Otherwise key and value are popped. A failed coercion is an ERROR that leaves `initialized` alone, and only ACCEPTED sets it. This is also `ParamOptDEPRECATED._do_accept`. |
| ParamOpt.TakesDashValue | pycmdparse/param_opt.py:23-24 | The value token is taken whatever it looks like, `--` included. |
| ParamOpt.IntValue | pycmdparse/param_opt.py:25-30 | An INT option given the text of an integer stores that integer and answers ACCEPTED. |
| ParamOpt.BoolTypeAlwaysFails | pycmdparse/param_opt.py:25-29 | With data type BOOL, a value always fails coercion, and `initialized` does not change. |
| ParamOptDeprecated.HandleDataType | pycmdparse/param_opt_deprecated.py:46-51 | Without a data type: True with nothing changed. With one: True exactly when the value converts, and the value is then replaced. |
| ParamOptDeprecated.InitialState | pycmdparse/param_opt_deprecated.py:12-18 | Raises "Data type does not match specification: X" exactly when a stored default does not convert. |
| ParamOptDeprecated.OnlyStoredDefaultsFail | pycmdparse/param_opt_deprecated.py:16-18 | An option that is optional, has no default or has no data type is always built in the base state. |
| ParamOptDeprecated.IntDefaultConverted | pycmdparse/param_opt_deprecated.py:16-18 | A required INT option whose default is integer text is built holding that integer. |
| MultiParamOpt.InitialState | pycmdparse/multiparam_opt.py:58-64 | The value starts as an empty list, losing any default. `initialized` is as the base sets it. |
| MultiParamOpt.Taken | pycmdparse/multiparam_opt.py:74-80 | Never pops more tokens than exist. For a limited policy the list never exceeds `count`. |
| MultiParamOpt.TakenStops | pycmdparse/multiparam_opt.py:74-80 | Except under EXACTLY, no captured token starts with `-`. The loop stops at a dash token (not under EXACTLY) or at a full list (not under NO_LIMIT). |
| MultiParamOpt.TakenCut | pycmdparse/multiparam_opt.py:74-80 | Up to the stopping point, a position is captured exactly when neither stopping condition holds there. |
| MultiParamOpt.TakenLength | pycmdparse/multiparam_opt.py:74-80 | NO_LIMIT captures up to the first dash token. AT_MOST captures the lesser of that and `count`. EXACTLY captures the lesser of `count` and what is left. |
| MultiParamOpt.Coerce | pycmdparse/multiparam_opt.py:86-92 | The list keeps its length and the values before the start. A failure index lies in the converted range. |
| MultiParamOpt.CoerceConverts | pycmdparse/multiparam_opt.py:86-92 | Values before the stop are replaced by their converted forms. The failing value does not convert, and it and those after it are untouched. |
| MultiParamOpt.Settle | pycmdparse/multiparam_opt.py:82-94 | EXACTLY with a wrong count gives ERROR "expected N parameters but only found k" with nothing changed. With a data type, ACCEPTED holds `_validate_datatype` of every captured value. Any other ERROR has a data type and names the first value that fails, by its raw text; the values before it are converted and it and those after it are untouched. Only ACCEPTED sets `initialized`. The stack and key are untouched. |
| MultiParamOpt.DoAccept | pycmdparse/multiparam_opt.py:70-94 | Fewer than two tokens: ERROR with nothing changed. Otherwise the key and the `Taken` tokens are popped and the rest stays. Without a data type, ACCEPTED holds those tokens in stack order. With one, ACCEPTED holds each of them converted by `_validate_datatype`, and an ERROR other than the EXACTLY count names the first one that fails to convert, the ones before it converted. Only ACCEPTED sets `initialized`. |
| MultiParamOpt.ExactlyTakesCount | pycmdparse/multiparam_opt.py:74-84 | EXACTLY with enough tokens takes exactly `count` of them, dashes or not, and leaves the rest. |
| MultiParamOpt.ExactlyShortfall | pycmdparse/multiparam_opt.py:74-84 | EXACTLY with too few tokens drains the stack, reports how many it found, and does not newly initialize the option. |
| MultiParamOpt.AtMostStops | pycmdparse/multiparam_opt.py:75-80 | AT_MOST captures the lesser of `count` and the count of tokens before the first dash token, and never reports too few. |
| MultiParamOpt.NoLimitStops | pycmdparse/multiparam_opt.py:75-80 | NO_LIMIT captures every token before the first dash token (`--` included) and leaves that token and the rest on the stack. |
| MultiParamOpt.ValueBounded | pycmdparse/multiparam_opt.py:78-79 | For EXACTLY and AT_MOST the list never outgrows `count`. |
| MultiParamOpt.BadValueNamed | pycmdparse/multiparam_opt.py:86-92 | The first value that fails coercion is named by its raw text in the ERROR. The values before it are already converted. |
| MultiParamOpt.CoerceStopsAtBad | pycmdparse/multiparam_opt.py:86-92 | The conversion loop stops at the first failing value, having converted the ones before it. |
| OptFactory.DefaultCount | pycmdparse/opt_factory.py:76-78 | A given count is kept. A missing one becomes 1 for EXACTLY and AT_MOST and stays missing for NO_LIMIT. |
| OptFactory.NewOption | pycmdparse/opt_factory.py:60-80 | Name, keys, hint, required, internal and help are copied. `bool` gives a BoolOpt. `param` gives a multi-value option with the parsed policy and defaulted count, or raises on an unknown policy. |
| OptFactory.CreateOption | pycmdparse/opt_factory.py:40-44 | Raises "Unknown option type: X" unless `opt` is exactly `bool` or `param`. |
| OptFactory.BoolIgnoresValueEntries | pycmdparse/opt_factory.py:70-71 | A BoolOpt does not depend on the `default`, `datatype`, `multi_type` or `count` entries. |
| OptFactory.ParamDefaultsToOneValue | pycmdparse/opt_factory.py:73-78 | A param option without `multi_type` or `count` is EXACTLY 1. |
| OptFactory.ParamPolicyFromName | pycmdparse/opt_factory.py:73 | The `multi_type` entry selects the policy whose name it is, in any case. |
| OptFactory.UnknownPolicyRaises | pycmdparse/opt_factory.py:73 | Any other `multi_type` makes a param option raise "Unknown param type: X". |
| OptFactory.CountAfterDefaulting | pycmdparse/opt_factory.py:76-78 | A given count passes through. A limited policy always ends up with a count. |
| MultiTypeEnum.ToStr | pycmdparse/multitype_enum.py:30-36 | Each policy's name is lower case. |
| MultiTypeEnum.FromStr | pycmdparse/multitype_enum.py:17-28 | None is EXACTLY. The three names are recognised in any case, and anything else raises "Unknown param type: X". |
| MultiTypeEnum.RoundTrip | pycmdparse/multitype_enum.py:17-36 | `fromstr(tostr(m)) == m`. |
| MultiTypeEnum.ToStrInjective | pycmdparse/multitype_enum.py:30-36 | Distinct policies have distinct names. |
| ParseResultEnum.ToStr | pycmdparse/parseresult_enum.py:33-41 | Each result's name is lower case. |
| ParseResultEnum.FromStr | pycmdparse/parseresult_enum.py:18-31 | None gives None. The four names are recognised in any case, and any other string gives None, never an exception. |
| ParseResultEnum.RoundTrip | pycmdparse/parseresult_enum.py:18-41 | `fromstr(tostr(r)) == r`. |
| ParseResultEnum.ToStrInjective | pycmdparse/parseresult_enum.py:33-41 | Distinct results have distinct names. |
| OptAcceptResultEnum.ToStr | pycmdparse/opt_acceptresult_enum.py:31-37 | Each reply's name is lower case. |
| OptAcceptResultEnum.FromStr | pycmdparse/opt_acceptresult_enum.py:18-29 | None and the empty string give None. The three names are recognised in any case, and any other string gives None. |
| OptAcceptResultEnum.RoundTrip | pycmdparse/opt_acceptresult_enum.py:18-37 | `fromstr(tostr(e)) == e`. |
| OptAcceptResultEnum.ToStrInjective | pycmdparse/opt_acceptresult_enum.py:31-37 | Distinct replies have distinct names. |
| Parser.ConcatMembers | pycmdparse/cmdline.py:255-259 | The flattened options are exactly the options of the categories. |
| Parser.ConcatAppend | pycmdparse/cmdline.py:255-259 | Flattening keeps category order: more categories extend the flattened list. |
| Parser.CmdLine.constructor | pycmdparse/cmdline.py:30-93 | Every class field starts as None. |
| Parser.CmdLine.Reset | pycmdparse/cmdline.py:96-111 | Every field is set back to None. |
| Parser.CmdLine.Flatten | pycmdparse/cmdline.py:255-259 | The options of every category, category after category. No categories gives no options. |
| Parser.CmdLine.GetOption | pycmdparse/cmdline.py:129-133 | The first flattened option with that name, or None exactly when no option has it. |
| Parser.CmdLine.AppendError | pycmdparse/cmdline.py:282-284 | The message is appended at the end of the error list, which is created when missing. |
| Parser.CmdLine.HandlePositionalParams | pycmdparse/cmdline.py:272-273 | With a sink, the stack is drained into it in order. Without one, nothing changes. |
| Parser.CmdLine.TryOptions | pycmdparse/cmdline.py:196-200 | The option taken, its reply, the states and the stack are those of `CmdLineSpec.Offer`. No other option changes. |
| Parser.CmdLine.Pass | pycmdparse/cmdline.py:189-213 | One pass of the loop changes the parser as `CmdLineSpec.LoopBody` says. |
| Parser.CmdLine.DispatchPass | pycmdparse/cmdline.py:196-213 | Offering the stack and handling the answer is `CmdLineSpec.Dispatch`. |
| Parser.CmdLine.ClaimedPass | pycmdparse/cmdline.py:211-213 | After an option took the stack, the pass is `CmdLineSpec.Claimed`: an ERROR reply appends its message and stops with PARSE_ERROR, any other reply goes on with nothing else changed. |
| Parser.CmdLine.UnclaimedPass | pycmdparse/cmdline.py:201-210 | A token nobody takes is handled as `CmdLineSpec.Unclaimed` says. |
| Parser.CmdLine.MissingOptionKeys | pycmdparse/cmdline.py:222-225 | The loop collects exactly `CmdLineSpec.MissingKeys`. |
| Parser.CmdLine.RunValidator | pycmdparse/cmdline.py:228-238 | The validator loop returns `CmdLineSpec.Complaint`. |
| Parser.CmdLine.FinishParse | pycmdparse/cmdline.py:215-241 | The steps after the loop give `CmdLineSpec.Finish`'s result and state. |
| Parser.CmdLine.ConcludeParse | pycmdparse/cmdline.py:218-241 | The leftover, mandatory and validator checks give `CmdLineSpec.Conclude`'s result and state. |
| Parser.CmdLine.CheckParse | pycmdparse/cmdline.py:222-241 | On an empty stack, the mandatory and validator checks give `CmdLineSpec.Conclude`'s result and state. |
| Parser.CmdLine.ScanPasses | pycmdparse/cmdline.py:189-213 | The while loop ends as `CmdLineSpec.Scan` says, stopping where the source would loop forever. |
| Parser.CmdLine.Parse | pycmdparse/cmdline.py:187-241 | `_parse` gives `CmdLineSpec.Parse`'s result, new option states, stack, positional parameters and errors. It returns None exactly on the run that loops forever. |
| CmdLineSpec.FirstClaim | pycmdparse/cmdline.py:197-200 | A found option lies at or after the start and recognises the front token. |
| CmdLineSpec.Offer | pycmdparse/cmdline.py:196-200 | A taken option exists, and its reply is not IGNORED. |
| CmdLineSpec.Unclaimed | pycmdparse/cmdline.py:201-210 | A plain token while no dash token remains goes to positional capture. Anything else appends "Unsupported option: 'X'" and ends with PARSE_ERROR. |
| CmdLineSpec.Claimed | pycmdparse/cmdline.py:211-213 | The option's new state and the stack are taken over. The pass stops exactly on ERROR, appending just that message. |
| CmdLineSpec.Dispatch | pycmdparse/cmdline.py:196-213 | Offering the stack never leaves the loop: it goes on or returns. |
| CmdLineSpec.LoopBody | pycmdparse/cmdline.py:189-213 | A pass returns only SHOW_USAGE (nothing changed) or PARSE_ERROR (one message appended). Otherwise the error list is untouched. |
| CmdLineSpec.Scan | pycmdparse/cmdline.py:189-213 | Pass after pass, every option keeps its state slot. |
| CmdLineSpec.MissingKeys | pycmdparse/cmdline.py:222-225 | At most one key per option. See `MissingKeysEmpty`, `MissingKeysComplete` and `MissingKeysSound`. |
| CmdLineSpec.ComplaintSees | pycmdparse/cmdline.py:228-238 | The validator's verdict depends only on the option states and the positional parameters. |
| CmdLineSpec.Drain | pycmdparse/cmdline.py:215-216 | With a sink the stack empties. States and errors are untouched. |
| CmdLineSpec.Conclude | pycmdparse/cmdline.py:218-241 | The checks after the loop always finish. |
| CmdLineSpec.Finish | pycmdparse/cmdline.py:215-241 | The part of `_parse` after the loop always finishes. |
| CmdLineLemmas.FirstClaimIsFirst | pycmdparse/cmdline.py:196-200 | The search stops at the first option that recognises the front token, and finds none exactly when none does. |
| CmdLineLemmas.OfferFirst | pycmdparse/cmdline.py:196-200 | The option that takes the stack is the first whose `accept` is not IGNORED, with exactly that `accept`'s step. None takes it exactly when every option ignores it. |
| CmdLineLemmas.PlainTokenUnclaimed | pycmdparse/cmdline.py:196-202 | A token without a leading dash is never taken by an option. |
| CmdLineLemmas.HelpShowsUsage | pycmdparse/cmdline.py:188-191 | With options, `-h` or `--help` in front (any case) gives SHOW_USAGE with nothing changed. |
| CmdLineLemmas.DoubleDashEndsScan | pycmdparse/cmdline.py:192-195 | A front `--` is dropped and ends the scan. With a sink the rest goes into it verbatim; without one it is left over. |
| CmdLineLemmas.OptionErrorStops | pycmdparse/cmdline.py:211-213 | An option's ERROR appends exactly its message and returns PARSE_ERROR with nothing more scanned. |
| CmdLineLemmas.UnsupportedOption | pycmdparse/cmdline.py:201-210 | An untaken dash token, or a plain one while a dash token remains, gives "Unsupported option: 'X'" and PARSE_ERROR. |
| CmdLineLemmas.PositionalCapture | pycmdparse/cmdline.py:202-204 | A plain token with no dash token left sends the whole stack to the sink, and then the final checks run. |
| CmdLineLemmas.StuckWithoutSink | pycmdparse/cmdline.py:202-204 | The same without a sink loops forever. |
| CmdLineLemmas.SpinIsFixedPoint | pycmdparse/cmdline.py:189-210 | A pass that does not shorten the stack changes nothing, and happens only without a sink. |
| CmdLineLemmas.SpinsWithoutSink | pycmdparse/cmdline.py:189-210 | A scan that loops forever started with tokens and without a sink. |
| CmdLineLemmas.DivergesOnlyWithoutSink | pycmdparse/cmdline.py:188-210 | `_parse` loops forever only with options, tokens and no positional sink. |
| CmdLineLemmas.NoOptions | pycmdparse/cmdline.py:187-220 | Without options the scan is skipped and every token, `-h` and `--` included, is positional. Without a sink the result is "Don't understand: [...]". |
| CmdLineLemmas.ScanErrors | pycmdparse/cmdline.py:189-213 | The scan returns only SHOW_USAGE or PARSE_ERROR. Only PARSE_ERROR adds to the error list, and by exactly one message. |
| CmdLineLemmas.ScanNeverSucceeds | pycmdparse/cmdline.py:189-213 | The scan never returns SUCCESS. |
| CmdLineLemmas.ConcludeErrors | pycmdparse/cmdline.py:215-241 | The final checks never give SHOW_USAGE. Their errors append exactly one message, and success appends none. |
| CmdLineLemmas.ErrorsAppendedOnce | pycmdparse/cmdline.py:187-241 | PARSE_ERROR and MISSING_MANDATORY_ARG append exactly one message. SUCCESS and SHOW_USAGE leave the error list alone. |
| CmdLineLemmas.MissingKeysEmpty | pycmdparse/cmdline.py:222-224 | The missing list is empty exactly when every required option is initialized. |
| CmdLineLemmas.MissingKeysComplete | pycmdparse/cmdline.py:222-225 | Every required, uninitialized option is named in the one message. |
| CmdLineLemmas.MissingKeysSound | pycmdparse/cmdline.py:222-225 | Only required, uninitialized options are named. |
| CmdLineLemmas.SuccessMeansComplete | pycmdparse/cmdline.py:215-241 | SUCCESS leaves no token behind and every required option initialized. |
| CmdLineLemmas.MissingMeansIncomplete | pycmdparse/cmdline.py:222-226 | MISSING_MANDATORY_ARG leaves at least one required option uninitialized. |
| CmdLineLemmas.ComplaintFirst | pycmdparse/cmdline.py:228-238 | The validator is asked about each option in order, then the positional parameters. The first ERROR is the complaint, and there is none exactly when no answer is ERROR. |
| ShowInfo.Fixed | pycmdparse/showinfo.py:173-183 | For width ≥ 0: exactly that length, padding a shorter value with spaces and truncating a longer one. A negative width drops that many characters from the end, as Python slicing does. |
| ShowInfo.PrependRequired | pycmdparse/showinfo.py:155-170 | None or blank text is returned as is. Other text is returned as exactly "Mandatory. " (when required) or "Optional. " (otherwise) followed by the text. |
| ShowInfo.LeftLenIsMax | pycmdparse/showinfo.py:122-127 | The widest `keys_and_hint` over all categories' options: no option is wider, one has that width, and it is 0 when there are none. |
| ShowInfo.CalcLeftLen | pycmdparse/showinfo.py:122-127 | The nested loop computes `ShowInfo.LeftLen`. |

## Left out

- YAML loading (`_init_from_yaml`): it calls into an external library. The parser's fields are inputs of the model.
- `Splitter.split_str` relies on `shlex.split`, an external lexer.
- `CmdLine.parse`'s type dispatch calls `split_str` with the wrong number of arguments. The model uses `_parse` directly.
- `SplitList`: the final wrap of the list in a `Stack` is not modelled. The splitter yields `Option<string>` tokens (None for a whitespace-only long value), while the dispatcher's stack holds strings.
- Field injection `_add_fields` (cmdline.py:240, 287-305) uses host reflection and is not modelled. It runs after every check has passed and can still raise: `CmdLineException` for an option name that is not a Python identifier or that clashes with a `CmdLine` attribute, and `AttributeError` for an option without a name. In those cases the model's SUCCESS is an exception in the source.
- Not modelled: `display_info`, the `__repr__` methods, `usage_example.py`, and the console output of `ShowInfo`: `show_errors`, `show_usage`, `_generate_usage`, and `_get_option_help`, which needs a terminal width and a text-wrapping helper.
- `PositionalParams`, `OptCategory`, `DataTypeEnum` and `CmdLineException` are not part of this model. The sink is its `params` list (None when the object is absent), a category is a name with its options, and the data type names are taken as `int`, `decimal`, `date` and `bool`.
- `Coercion.Validate`: `float()` is modelled by a decimal-literal grammar, and the value is kept as its text. `inf`, `nan`, whitespace and underscores are not accepted.
- `Coercion.ParseInt`: `int()` is modelled as an optional sign and ASCII digits. Python also accepts surrounding whitespace, underscores and non-ASCII digits.
- `Coercion.Validate`: INT of a float value gives None in the model, while Python's `int(2.5)` truncates to 2. DECIMAL of a float value keeps it. Dates and lists fail for INT and DECIMAL, as in Python.
- `Coercion.Strptime` uses a simplified calendar check: `%Y` takes four digits, the month is 1-12, the day is 1-31 and must exist in its month.
- `Strings.IsWordChar`: Python's `\w` is restricted to ASCII letters, digits and `_`. `Strings.Lower` and `Strings.IsSpace` are also restricted to ASCII.
- `Strings.ListRepr`: Python's quote escaping in `str()` of a list is not modelled.
- `Parser.CmdLine.Parse` requires that no option object appears twice in the categories. With aliasing, one object's state would be updated through two positions.
- The validator hook is a pure function from an option (or the positional parameters) to a reply. Its side effects and exceptions are not modelled, and only its ERROR answer is observed.
- The class-level fields of `CmdLine` are modelled as the fields of one instance.
- `Parser.CmdLine.Parse` reports the run on which the source loops forever as the result None. The source never returns on it.
- `OptFactory.NewOption` builds a `param` option as the multi-value variant, because of the factory's constructor arity. The `datatype` entry is taken already converted.
- `MultiParamOpt.Coerce` is stated over a conversion function, which is instantiated with `_validate_datatype` of the option's data type.
