/**
 * The argument scan of CmdProc, stated over values. Each handler of the scanner becomes a function
 * from the scanner state before a token to the state after it, or to the error that ends the
 * process: every user error writes a message to standard error, shows help and exits with status 1,
 * and the help switch only shows help and exits with status 1, so an `Err` here is the last thing
 * that happens. `setValue` is recorded as a binding appended to a log,
 * so that the order in which values are bound can be stated.
 */
module Scan {
  import opened Wrappers
  import opened Text
  import opened Switches
  import opened Descriptors
  import opened Registry

  /** Why the scan stopped: the help switch, or one of the user errors of the message bundle. */
  datatype ErrorKind =
    | HelpRequested
    | CannotRedirectStdIn
    | UnknownLong(name: string)
    | UnknownShort(ch: char)
    | MissingArgument(name: string)

  /** One call of FPData.setValue: the descriptor and the value bound to it. */
  datatype Binding = Binding(fp: FPData, value: string)

  /** The mutable fields of CmdProc, and the log of values bound so far. */
  datatype State = State(idx: nat, endOfSwitches: bool, redirectStdIn: bool, others: seq<string>, bindings: seq<Binding>)

  /**
   * The final fields of CmdProc. The help switches are `--` and `-` followed by names read from the
   * message bundle; here they are parameters.
   */
  datatype Config = Config(args: seq<string>, info: CmdLnInfo, allowStdInRedirection: bool,
                           helpLongName: string, helpShortName: string)
  {
    function HelpLong(): string {
      "--" + helpLongName
    }

    function HelpShort(): string {
      "-" + helpShortName
    }
  }

  /** What a scan of the whole command line ends in. */
  datatype Outcome = Success(redirectStdIn: bool, others: seq<string>, bindings: seq<Binding>) | Fatal(error: ErrorKind)

  /** One character of a short cluster, and whether a `-` after it negates it. */
  datatype ShortItem = ShortItem(ch: char, negated: bool)

  /** The state of a freshly constructed CmdProc. */
  const Start: State := State(0, false, false, [], [])

  /** `args[idx++]`: the state once slot `st.idx` has been read. */
  function Next(st: State): State {
    st.(idx := st.idx + 1)
  }

  function Bind(st: State, fp: FPData, value: string): State {
    st.(bindings := st.bindings + [Binding(fp, value)])
  }

  /** A binding the scanner can make: to a registered descriptor, and only "true" or "false" to a flag. */
  predicate WellBound(c: Config, b: Binding) {
    b.fp in c.info.cmdLnData && (b.fp.isFlag ==> b.value == TrueText || b.value == FalseText)
  }

  /**
   * What every step of the scan keeps: slots are taken left to right and never given back, the
   * end-of-switches latch stays set, redirection is only ever switched on when it is allowed,
   * `others` and the bindings only grow at their ends, and every new binding is well bound.
   */
  predicate Advances(c: Config, st: State, st2: State) {
    st.idx <= st2.idx <= |c.args|
    && (st.endOfSwitches ==> st2.endOfSwitches)
    && (st2.redirectStdIn ==> st.redirectStdIn || c.allowStdInRedirection)
    && st.others <= st2.others
    && st.bindings <= st2.bindings
    && forall k :: |st.bindings| <= k < |st2.bindings| ==> WellBound(c, st2.bindings[k])
  }

  lemma AdvancesTransitive(c: Config, st1: State, st2: State, st3: State)
    requires Advances(c, st1, st2) && Advances(c, st2, st3)
    ensures Advances(c, st1, st3)
  {
    forall k | |st1.bindings| <= k < |st3.bindings| ensures WellBound(c, st3.bindings[k]) {
      if k < |st2.bindings| {
        assert st3.bindings[k] == st2.bindings[k];
      }
    }
  }

  /** The tokens the handler recognises before trying the switch grammars. */
  predicate IsReserved(c: Config, arg: string) {
    arg == "--" || arg == "-" || arg == c.HelpLong() || arg == c.HelpShort()
  }

  /** A token starting with `\-` loses its backslash; any other token is kept as it is. */
  function Unescape(s: string): (r: string)
    ensures r == s || (s == ['\\'] + r && r != [] && r[0] == '-')
    ensures r != s <==> StartsWith(s, "\\-")
    ensures s != [] && s[0] == '-' ==> r == s
  {
    if StartsWith(s, "\\-") then s[1..] else s
  }

  /** handler: `--`, `-` and the help switches are compared with the stripped token; anything else is unescaped and matched. */
  function Handler(c: Config, st: State, rawArg: string): (r: Result<State, ErrorKind>)
    requires st.idx <= |c.args|
    ensures r.Ok? ==> Advances(c, st, r.value)
    ensures Strip(rawArg) == "--" ==> r == Ok(st.(endOfSwitches := true))
  {
    var arg := Strip(rawArg);
    if arg == "--" then Ok(st.(endOfSwitches := true))
    else if arg == "-" then HandleRedirectionSwitch(c, st)
    else if arg == c.HelpLong() || arg == c.HelpShort() then Err(HelpRequested)
    else HandleLong(c, st, Unescape(rawArg))
  }

  /** handleRedirectionSwitch */
  function HandleRedirectionSwitch(c: Config, st: State): (r: Result<State, ErrorKind>)
    ensures r.Ok? <==> c.allowStdInRedirection
    ensures r.Ok? ==> r.value.redirectStdIn && r.value.(redirectStdIn := st.redirectStdIn) == st
    ensures r.Err? ==> r.error == CannotRedirectStdIn
  {
    if c.allowStdInRedirection then Ok(st.(redirectStdIn := true)) else Err(CannotRedirectStdIn)
  }

  /** handleLong: RX_LONG with a value, RX_LONG without one, or on to the short grammar. */
  function HandleLong(c: Config, st: State, rawArg: string): (r: Result<State, ErrorKind>)
    requires st.idx <= |c.args|
    ensures r.Ok? ==> Advances(c, st, r.value)
  {
    match ParseLong(rawArg)
    case Some(LongSwitch(name, Some(value))) => HandleLongFPValue(c, st, name, value)
    case Some(LongSwitch(name, None)) => HandleLongFP(c, st, name)
    case None => HandleShort(c, st, rawArg)
  }

  /** handleLongFP(name): the first descriptor of either kind with that long name. */
  function HandleLongFP(c: Config, st: State, name: string): (r: Result<State, ErrorKind>)
    requires st.idx <= |c.args|
    ensures r.Ok? ==> Advances(c, st, r.value)
    ensures c.info.FindLong(name) == [] <==> r == Err(UnknownLong(name))
  {
    var fps := c.info.FindLong(name);
    if fps == [] then Err(UnknownLong(name)) else HandleLongArg(c, st, fps[0])
  }

  /** handleLongArg: a flag gets "true"; a parameter takes the next slot as it is, whatever it looks like. */
  function HandleLongArg(c: Config, st: State, fp: FPData): (r: Result<State, ErrorKind>)
    requires st.idx <= |c.args| && fp in c.info.cmdLnData
    ensures r.Ok? ==> Advances(c, st, r.value)
    ensures r.Err? <==> !fp.isFlag && st.idx == |c.args|
    ensures r.Err? ==> r.error == MissingArgument(fp.longName)
    ensures r.Ok? && fp.isFlag ==> r.value == Bind(st, fp, TrueText)
    ensures r.Ok? && !fp.isFlag ==> r.value == Bind(Next(st), fp, c.args[st.idx])
  {
    if fp.isFlag then Ok(Bind(st, fp, TrueText))
    else if st.idx < |c.args| then Ok(Bind(Next(st), fp, c.args[st.idx]))
    else Err(MissingArgument(fp.longName))
  }

  /** handleLongFP(name, value): `--name=value` binds only to a parameter. */
  function HandleLongFPValue(c: Config, st: State, name: string, value: string): (r: Result<State, ErrorKind>)
    requires st.idx <= |c.args|
    ensures r.Ok? ==> Advances(c, st, r.value)
    ensures r.Err? <==> c.info.FindLongOfKind(name, false) == []
    ensures r.Err? ==> r.error == UnknownLong(name)
    ensures r.Ok? ==> r.value == Bind(st, c.info.FindLongOfKind(name, false)[0], value)
  {
    var fps := c.info.FindLongOfKind(name, false);
    if fps == [] then Err(UnknownLong(name)) else Ok(Bind(st, fps[0], value))
  }

  /** handleShort: an RX_SHORT cluster is handled character by character; any other token is a residual. */
  function HandleShort(c: Config, st: State, rawArg: string): (r: Result<State, ErrorKind>)
    requires st.idx <= |c.args|
    ensures r.Ok? ==> Advances(c, st, r.value)
    ensures !MatchesShort(rawArg) ==> r == Ok(st.(others := st.others + [rawArg]))
  {
    match ParseShort(rawArg)
    case Some(cluster) => ApplyItems(c, st, Decompose(cluster))
    case None => Ok(st.(others := st.others + [rawArg]))
  }

  /**
   * How the loop of handleShort reads a cluster: each character, and whether the next one is a `-`
   * that negates it and is skipped.
   */
  function Decompose(cp: string): (r: seq<ShortItem>)
    ensures |r| <= |cp|
    ensures cp == [] <==> r == []
    decreases |cp|
  {
    if cp == [] then []
    else if |cp| >= 2 && cp[1] == '-' then [ShortItem(cp[0], true)] + Decompose(cp[2..])
    else [ShortItem(cp[0], false)] + Decompose(cp[1..])
  }

  /** The cluster text of a sequence of items: each character, followed by `-` when negated. */
  function Compose(items: seq<ShortItem>): (r: string)
    ensures |r| >= |items|
  {
    if items == [] then [] else [items[0].ch] + (if items[0].negated then "-" else "") + Compose(items[1..])
  }

  /** The items of a cluster handled in order, each by handleShortFP; the first error ends the scan. */
  function ApplyItems(c: Config, st: State, items: seq<ShortItem>): (r: Result<State, ErrorKind>)
    requires st.idx <= |c.args|
    ensures r.Ok? ==> Advances(c, st, r.value)
    decreases |items|
  {
    if items == [] then Ok(st)
    else
      match HandleShortFP(c, st, items[0].ch, items[0].negated)
      case Err(e) => Err(e)
      case Ok(st2) =>
        var r := ApplyItems(c, st2, items[1..]);
        if r.Ok? then AdvancesTransitive(c, st, st2, r.value); r else r
  }

  /** handleShortFP: the first descriptor with that short name. */
  function HandleShortFP(c: Config, st: State, ch: char, neg: bool): (r: Result<State, ErrorKind>)
    requires st.idx <= |c.args|
    ensures r.Ok? ==> Advances(c, st, r.value)
    ensures c.info.FindShort(ch) == [] <==> r == Err(UnknownShort(ch))
  {
    var fps := c.info.FindShort(ch);
    if fps == [] then Err(UnknownShort(ch)) else HandleShortArg(c, st, fps[0], neg)
  }

  /** handleShortArg: a flag gets "false" when negated and "true" otherwise; a parameter takes the next slot through getArgument. */
  function HandleShortArg(c: Config, st: State, fp: FPData, neg: bool): (r: Result<State, ErrorKind>)
    requires st.idx <= |c.args| && fp in c.info.cmdLnData && fp.HasShortName()
    ensures r.Ok? ==> Advances(c, st, r.value)
    ensures r.Ok? <==> fp.isFlag || (st.idx < |c.args| && GetArgument(c, st.idx, fp.ShortNameStr()).Ok?)
    ensures r.Err? ==> r.error == MissingArgument(fp.ShortNameStr())
    ensures r.Ok? && fp.isFlag ==> r.value == Bind(st, fp, if neg then FalseText else TrueText)
    ensures r.Ok? && !fp.isFlag ==>
              r.value == Bind(Next(st), fp, GetArgument(c, st.idx, fp.ShortNameStr()).value)
  {
    if fp.isFlag then Ok(Bind(st, fp, if neg then FalseText else TrueText))
    else if st.idx < |c.args| then
      match GetArgument(c, st.idx, fp.ShortNameStr())
      case Err(e) => Err(e)
      case Ok(value) => Ok(Bind(Next(st), fp, value))
    else Err(MissingArgument(fp.ShortNameStr()))
  }

  /** getArgument: the slot at `idx` must match neither switch grammar; a leading `\-` loses its backslash. */
  function GetArgument(c: Config, idx: nat, name: string): (r: Result<string, ErrorKind>)
    requires idx < |c.args|
    ensures r.Err? <==> MatchesLong(c.args[idx]) || MatchesShort(c.args[idx])
    ensures r.Err? ==> r.error == MissingArgument(name)
    ensures r.Ok? ==> r.value == Unescape(c.args[idx])
  {
    var value := c.args[idx];
    if MatchesLong(value) || MatchesShort(value) then Err(MissingArgument(name)) else Ok(Unescape(value))
  }

  /**
   * One pass of the loop of processCommandLine: read slot `st.idx`; after `--` it goes to
   * `others` as it is, before it through the handler.
   */
  function Step(c: Config, st: State): (r: Result<State, ErrorKind>)
    requires st.idx < |c.args|
    ensures r.Ok? ==> Advances(c, st, r.value) && st.idx < r.value.idx
  {
    var rawArg := c.args[st.idx];
    var next := Next(st);
    if st.endOfSwitches then Ok(next.(others := next.others + [rawArg]))
    else Handler(c, next, rawArg)
  }

  /** The loop of processCommandLine from a given state, up to the last slot or the first error. */
  function ScanFrom(c: Config, st: State): (r: Result<State, ErrorKind>)
    requires st.idx <= |c.args|
    ensures r.Ok? ==> Advances(c, st, r.value) && r.value.idx == |c.args|
    decreases |c.args| - st.idx
  {
    if st.idx == |c.args| then Ok(st)
    else
      match Step(c, st)
      case Err(e) => Err(e)
      case Ok(st2) =>
        var r := ScanFrom(c, st2);
        if r.Ok? then AdvancesTransitive(c, st, st2, r.value); r else r
  }

  /** processCommandLine on a fresh scanner: redirection only when allowed, and only well-bound values. */
  function Scan(c: Config): (r: Outcome)
    ensures r.Success? && r.redirectStdIn ==> c.allowStdInRedirection
    ensures r.Success? ==> forall k :: 0 <= k < |r.bindings| ==> WellBound(c, r.bindings[k])
  {
    match ScanFrom(c, Start)
    case Err(e) => Fatal(e)
    case Ok(st) => Success(st.redirectStdIn, st.others, st.bindings)
  }
}
