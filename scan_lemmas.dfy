/**
 * What the scan does with each kind of token, stated at the position of that token: the state
 * `st` is the scanner just before token `st.idx` is read, and each lemma says what the rest of the
 * scan from there comes to.
 */
module ScanLemmas {
  import opened Wrappers
  import opened Text
  import opened Switches
  import opened Descriptors
  import opened Registry
  import opened Scan

  /** The scanner is about to classify token `st.idx`. */
  predicate Before(c: Config, st: State) {
    st.idx < |c.args| && !st.endOfSwitches
  }

  /** The rest of the scan after a step: an error ends it, a new state goes on. */
  function Continue(c: Config, r: Result<State, ErrorKind>): Result<State, ErrorKind>
    requires r.Ok? ==> r.value.idx <= |c.args|
  {
    match r
    case Err(e) => Err(e)
    case Ok(st) => ScanFrom(c, st)
  }

  /** The scan is one step followed by the scan from where that step leaves off. */
  lemma ScanUnfold(c: Config, st: State)
    requires st.idx < |c.args|
    ensures ScanFrom(c, st) == Continue(c, Step(c, st))
  {
    match Step(c, st)
    case Err(e) =>
    case Ok(st2) =>
  }

  /** Before `--` a step is the handler applied to the next slot. */
  lemma StepHandles(c: Config, st: State)
    requires Before(c, st)
    ensures Step(c, st) == Handler(c, Next(st), c.args[st.idx])
  {
    var next := Next(st);
    var rawArg := c.args[st.idx];
    assert Step(c, st) == Handler(c, next, rawArg);
  }

  /** Before `--`, one token goes through the handler and the scan goes on from the state it leaves. */
  lemma ScanStep(c: Config, st: State)
    requires Before(c, st)
    ensures ScanFrom(c, st) == Continue(c, Handler(c, Next(st), c.args[st.idx]))
  {
    ScanUnfold(c, st);
    StepHandles(c, st);
  }

  /** A token that is none of `--`, `-` and the help switches goes, unescaped, to handleFlagsAndParams. */
  lemma PassedOn(c: Config, st: State, rawArg: string)
    requires st.idx <= |c.args| && !IsReserved(c, Strip(rawArg))
    ensures Handler(c, st, rawArg) == HandleLong(c, st, Unescape(rawArg))
  {
  }

  /** A token the handler rejects is where the scan ends. */
  lemma ScanStepErr(c: Config, st: State, e: ErrorKind)
    requires Before(c, st) && Handler(c, Next(st), c.args[st.idx]) == Err(e)
    ensures ScanFrom(c, st) == Err(e)
  {
    ScanStep(c, st);
  }

  /** After `--` a token is appended to `others` as it is. */
  lemma SkipStep(c: Config, st: State)
    requires st.endOfSwitches && st.idx < |c.args|
    ensures ScanFrom(c, st) == ScanFrom(c, Next(st).(others := st.others + [c.args[st.idx]]))
  {
    ScanUnfold(c, st);
  }

  /** With every slot read the scan has nothing left to do. */
  lemma ScanDone(c: Config, st: State)
    requires st.idx == |c.args|
    ensures ScanFrom(c, st) == Ok(st)
  {
  }

  // ---------------------------------------------------------------- end of switches

  /** After `--` every remaining token is appended to `others` as it is, in order, and nothing else changes. */
  lemma {:induction false} EndOfSwitchesTakesRest(c: Config, st: State)
    requires st.endOfSwitches && st.idx <= |c.args|
    ensures ScanFrom(c, st) == Ok(st.(idx := |c.args|, others := st.others + c.args[st.idx..]))
    decreases |c.args| - st.idx
  {
    if st.idx < |c.args| {
      var next := Next(st).(others := st.others + [c.args[st.idx]]);
      assert ScanFrom(c, st) == ScanFrom(c, next);
      EndOfSwitchesTakesRest(c, next);
      assert c.args[st.idx..] == [c.args[st.idx]] + c.args[st.idx + 1..];
      assert next.others + c.args[st.idx + 1..] == st.others + c.args[st.idx..];
      assert next.(idx := |c.args|, others := next.others + c.args[st.idx + 1..])
          == st.(idx := |c.args|, others := st.others + c.args[st.idx..]);
    } else {
      assert c.args[st.idx..] == [];
      assert st.others + [] == st.others;
    }
  }

  /** A token that strips to `--` is not stored itself, and every later token is a verbatim residual. */
  lemma DoubleDashEndsSwitches(c: Config, st: State)
    requires Before(c, st) && Strip(c.args[st.idx]) == "--"
    ensures ScanFrom(c, st)
            == Ok(st.(idx := |c.args|, endOfSwitches := true, others := st.others + c.args[st.idx + 1..]))
  {
    EndOfSwitchesTakesRest(c, Next(st).(endOfSwitches := true));
  }

  // ---------------------------------------------------------------- redirection, help and errors

  /** A token that strips to `-` switches redirection on when that is allowed and is fatal otherwise; it never reaches `others`. */
  lemma RedirectToken(c: Config, st: State)
    requires Before(c, st) && Strip(c.args[st.idx]) == "-"
    ensures ScanFrom(c, st) == if c.allowStdInRedirection
                               then ScanFrom(c, Next(st).(redirectStdIn := true))
                               else Err(CannotRedirectStdIn)
  {
    ScanStep(c, st);
    var next := Next(st);
    assert Handler(c, next, c.args[st.idx]) == HandleRedirectionSwitch(c, next);
  }

  /** A help token ends the scan, whatever follows it on the command line. */
  lemma HelpToken(c: Config, st: State, rest: seq<string>)
    requires Before(c, st)
    requires Strip(c.args[st.idx]) == c.HelpLong() || Strip(c.args[st.idx]) == c.HelpShort()
    requires Strip(c.args[st.idx]) != "--" && Strip(c.args[st.idx]) != "-"
    ensures ScanFrom(c, st) == Err(HelpRequested)
    ensures ScanFrom(c.(args := c.args[..st.idx + 1] + rest), st) == Err(HelpRequested)
  {
    var c2 := c.(args := c.args[..st.idx + 1] + rest);
    assert c2.args[st.idx] == c.args[st.idx];
    ScanStep(c, st);
    ScanStep(c2, st);
  }

  /** A token whose handling fails ends the scan with that error: no later token is looked at. */
  lemma ErrorIsTerminal(c: Config, st: State)
    requires Before(c, st) && Handler(c, Next(st), c.args[st.idx]).Err?
    ensures ScanFrom(c, st) == Handler(c, Next(st), c.args[st.idx])
  {
    ScanStep(c, st);
  }

  // ---------------------------------------------------------------- residuals and escapes

  /** A token matching neither grammar goes to `others`, unchanged except that a leading `\-` loses its backslash. */
  lemma ResidualToken(c: Config, st: State)
    requires Before(c, st) && !IsReserved(c, Strip(c.args[st.idx]))
    requires !MatchesLong(Unescape(c.args[st.idx])) && !MatchesShort(Unescape(c.args[st.idx]))
    ensures ScanFrom(c, st) == ScanFrom(c, Next(st).(others := st.others + [Unescape(c.args[st.idx])]))
  {
    ResidualHandled(c, Next(st), c.args[st.idx]);
    ScanStep(c, st);
  }

  /** The handler appends a token matching neither grammar to `others`. */
  lemma ResidualHandled(c: Config, st: State, rawArg: string)
    requires st.idx <= |c.args| && !IsReserved(c, Strip(rawArg))
    requires !MatchesLong(Unescape(rawArg)) && !MatchesShort(Unescape(rawArg))
    ensures Handler(c, st, rawArg) == Ok(st.(others := st.others + [Unescape(rawArg)]))
  {
    var u := Unescape(rawArg);
    PassedOn(c, st, rawArg);
    assert HandleLong(c, st, u) == HandleShort(c, st, u);
  }

  /** `\-` and `\--` are the ways to pass a literal `-` or `--`: they reach `others` as `-` and `--`. */
  lemma EscapedDashes(c: Config, st: State)
    requires Before(c, st) && (c.args[st.idx] == "\\-" || c.args[st.idx] == "\\--")
    ensures ScanFrom(c, st) == ScanFrom(c, Next(st).(others := st.others + [c.args[st.idx][1..]]))
  {
    EscapedDash(c, c.args[st.idx]);
    ResidualToken(c, st);
  }

  /** `\-` and `\--` are reserved tokens of neither kind, and unescape to a dash run that matches neither grammar. */
  lemma EscapedDash(c: Config, t: string)
    requires t == "\\-" || t == "\\--"
    ensures !IsReserved(c, Strip(t)) && Unescape(t) == t[1..]
    ensures !MatchesLong(t[1..]) && !MatchesShort(t[1..])
  {
    StripUnchanged(t);
    BackslashNotReserved(c, t);
    DashesMatchNeither(t[1..]);
  }

  /** No reserved token starts with a backslash. */
  lemma BackslashNotReserved(c: Config, s: string)
    requires s != [] && s[0] == '\\'
    ensures !IsReserved(c, s)
  {
    assert c.HelpLong()[0] == '-' && c.HelpShort()[0] == '-';
  }

  /** `\-x…` is not a literal: without its backslash it is matched again, here as a short cluster. */
  lemma EscapedClusterToken(c: Config, st: State, cluster: string)
    requires Before(c, st) && c.args[st.idx] == "\\-" + cluster && IsCluster(cluster)
    ensures ScanFrom(c, st) == Continue(c, ApplyItems(c, Next(st), Decompose(cluster)))
  {
    EscapedClusterHandled(c, Next(st), cluster);
    ScanStep(c, st);
  }

  /** The handler reads `\-x…` as the cluster `x…`. */
  lemma EscapedClusterHandled(c: Config, st: State, cluster: string)
    requires st.idx <= |c.args| && IsCluster(cluster)
    ensures Handler(c, st, "\\-" + cluster) == ApplyItems(c, st, Decompose(cluster))
  {
    var t := "\\-" + cluster;
    StripKeepsFirst(t);
    assert Strip(t)[0] == '\\';
    assert Unescape(t) == "-" + cluster;
    PassedOn(c, st, t);
    ClusterHandled(c, st, cluster);
  }

  // ---------------------------------------------------------------- long switches

  /**
   * `--name` goes to the first descriptor with that long name, of either kind: a flag gets "true",
   * a parameter takes the next slot as it is (even one that looks like a switch). There is no such
   * descriptor: unknown long; no next slot: missing argument.
   */
  lemma LongSwitchToken(c: Config, st: State, name: string)
    requires Before(c, st) && c.args[st.idx] == "--" + name && IsLongName(name)
    requires !IsReserved(c, Strip(c.args[st.idx]))
    ensures var next := Next(st);
            var fps := c.info.FindLong(name);
            ScanFrom(c, st) ==
              if fps == [] then Err(UnknownLong(name))
              else if fps[0].isFlag then ScanFrom(c, Bind(next, fps[0], TrueText))
              else if next.idx < |c.args| then ScanFrom(c, Bind(Next(next), fps[0], c.args[next.idx]))
              else Err(MissingArgument(fps[0].longName))
  {
    ScanStep(c, st);
    LongNameHandled(c, Next(st), c.args[st.idx], name);
  }

  /** The handler reads `--name` as a lookup of `name`. */
  lemma LongNameHandled(c: Config, st: State, t: string, name: string)
    requires st.idx <= |c.args| && t == "--" + name && IsLongName(name) && !IsReserved(c, Strip(t))
    ensures Handler(c, st, t) == HandleLongFP(c, st, name)
  {
    CanonicalLongName(t, name);
    PassedOn(c, st, t);
  }

  /** `--name=value` binds `value` unchanged to the first parameter with that long name; a flag of that name does not count. */
  lemma LongAssignmentToken(c: Config, st: State, name: string, value: string)
    requires Before(c, st) && c.args[st.idx] == "--" + name + "=" + value
    requires IsLongName(name) && IsInlineValue(value)
    requires !IsReserved(c, Strip(c.args[st.idx]))
    ensures var fps := c.info.FindLongOfKind(name, false);
            ScanFrom(c, st) ==
              if fps == [] then Err(UnknownLong(name))
              else ScanFrom(c, Bind(Next(st), fps[0], value))
  {
    ScanStep(c, st);
    LongAssignmentHandled(c, Next(st), c.args[st.idx], name, value);
  }

  /** The handler reads `--name=value` as an assignment of `value` to `name`. */
  lemma LongAssignmentHandled(c: Config, st: State, t: string, name: string, value: string)
    requires st.idx <= |c.args| && t == "--" + name + "=" + value && !IsReserved(c, Strip(t))
    requires IsLongName(name) && IsInlineValue(value)
    ensures Handler(c, st, t) == HandleLongFPValue(c, st, name, value)
  {
    CanonicalLongAssignment(t, name, value);
    PassedOn(c, st, t);
  }

  /** `--name` is its own unescaping and parses to exactly `name`. */
  lemma CanonicalLongName(t: string, name: string)
    requires t == "--" + name && IsLongName(name)
    ensures Unescape(t) == t && ParseLong(t) == Some(LongSwitch(name, None))
  {
    assert t[0] == '-';
    ParseLongOfName([], name, []);
    assert LongLayout([], name, [], None, []) == t;
  }

  /** `--name=value` is its own unescaping and parses to exactly `name` and `value`. */
  lemma CanonicalLongAssignment(t: string, name: string, value: string)
    requires t == "--" + name + "=" + value && IsLongName(name) && IsInlineValue(value)
    ensures Unescape(t) == t && ParseLong(t) == Some(LongSwitch(name, Some(value)))
  {
    assert t == LongLayout([], name, [], Some(value), []) by {
      assert AssignmentTail([], Some(value), []) == "=" + value;
      assert "--" + name + "=" + value == "--" + (name + ("=" + value));
    }
    ParseLongOfAssignment([], name, [], value, []);
    assert Unescape(t) == t by { assert t[0] == '-'; }
  }

  // ---------------------------------------------------------------- short clusters

  lemma ShortClusterParses(cluster: string)
    requires IsCluster(cluster)
    ensures ParseLong("-" + cluster) == None
    ensures ParseShort("-" + cluster) == Some(cluster)
  {
    assert LeadingCount("-" + cluster, IsRegexSpace) == 0;
    assert ("-" + cluster)[0..] == "-" + cluster;
    ParseShortOfCluster([], cluster, []);
    assert ShortLayout([], cluster, []) == "-" + cluster;
  }

  /** `-cluster` is handled item by item, in cluster order. */
  lemma ClusterToken(c: Config, st: State, cluster: string)
    requires Before(c, st) && c.args[st.idx] == "-" + cluster && IsCluster(cluster)
    requires !IsReserved(c, Strip(c.args[st.idx]))
    ensures ScanFrom(c, st) == Continue(c, ApplyItems(c, Next(st), Decompose(cluster)))
  {
    ScanStep(c, st);
    assert Unescape(c.args[st.idx]) == c.args[st.idx];
    ClusterHandled(c, Next(st), cluster);
  }

  /** handleLong passes a cluster on to handleShort, which handles its items. */
  lemma ClusterHandled(c: Config, st: State, cluster: string)
    requires st.idx <= |c.args| && IsCluster(cluster)
    ensures HandleLong(c, st, "-" + cluster) == ApplyItems(c, st, Decompose(cluster))
  {
    ShortClusterParses(cluster);
  }

  /** Reading a cluster as items loses nothing: writing the items back gives the cluster. */
  lemma {:induction false} ComposeDecompose(cp: string)
    ensures Compose(Decompose(cp)) == cp
    decreases |cp|
  {
    if cp != [] {
      if |cp| >= 2 && cp[1] == '-' {
        ComposeDecompose(cp[2..]);
        assert cp == [cp[0]] + "-" + cp[2..];
      } else {
        ComposeDecompose(cp[1..]);
        assert cp == [cp[0]] + cp[1..];
      }
    }
  }

  /** No item that is not negated is followed by the character `-`: such a `-` would read as a negation. */
  predicate Unambiguous(items: seq<ShortItem>) {
    forall k :: 0 <= k < |items| - 1 && !items[k].negated ==> items[k + 1].ch != '-'
  }

  /** Every unambiguous item sequence is read back from its text exactly. */
  lemma {:induction false} DecomposeCompose(items: seq<ShortItem>)
    requires Unambiguous(items)
    ensures Decompose(Compose(items)) == items
    decreases |items|
  {
    if items != [] {
      var tail := Compose(items[1..]);
      DecomposeCompose(items[1..]);
      var cp := Compose(items);
      if items[0].negated {
        assert cp == [items[0].ch, '-'] + tail;
        assert cp[2..] == tail;
      } else {
        assert cp == [items[0].ch] + tail;
        assert cp[1..] == tail;
        if |cp| >= 2 {
          assert tail[0] == items[1].ch;
        }
      }
    }
  }

  /** One turn of the loop in handleShort: the character at `i`, negated when a `-` follows it. */
  lemma DecomposeStep(cp: string, i: nat)
    requires i < |cp|
    ensures var neg := i + 1 < |cp| && cp[i + 1] == '-';
            Decompose(cp[i..]) == [ShortItem(cp[i], neg)] + Decompose(cp[if neg then i + 2 else i + 1..])
  {
    var neg := i + 1 < |cp| && cp[i + 1] == '-';
    if neg {
      assert cp[i..][2..] == cp[i + 2..];
    } else {
      assert cp[i..][1..] == cp[i + 1..];
    }
  }

  /** The first descriptor with the item's short name is a parameter. */
  predicate IsParamItem(c: Config, it: ShortItem) {
    c.info.FindShort(it.ch) != [] && !c.info.FindShort(it.ch)[0].isFlag
  }

  /** How many argv slots the items take: one per parameter item. */
  function ParamCount(c: Config, items: seq<ShortItem>): (n: nat)
    ensures n <= |items|
  {
    if items == [] then 0 else (if IsParamItem(c, items[0]) then 1 else 0) + ParamCount(c, items[1..])
  }

  /**
   * The binding made for item `k` of a cluster whose handling starts at slot `base`: to the first
   * descriptor with that short name; "false" or "true" for a flag by negation; for a parameter the
   * unescaped slot after the ones taken by the parameters before it, a slot matching neither grammar.
   */
  predicate ItemBinding(c: Config, base: nat, items: seq<ShortItem>, k: nat, bindings: seq<Binding>, offset: nat)
    requires k < |items| && offset + k < |bindings|
  {
    BindsItem(c, base + ParamCount(c, items[..k]), items[k], bindings[offset + k])
  }

  /** The binding `b` is the one item `it` makes when a parameter there would take slot `slot`. */
  predicate BindsItem(c: Config, slot: nat, it: ShortItem, b: Binding) {
    var fps := c.info.FindShort(it.ch);
    fps != [] && b.fp == fps[0]
    && if fps[0].isFlag then b.value == (if it.negated then FalseText else TrueText)
       else
         slot < |c.args| && !MatchesLong(c.args[slot]) && !MatchesShort(c.args[slot])
         && b.value == Unescape(c.args[slot])
  }

  /** `r` differs from `st` at most in its position and its bindings. */
  predicate OnlyBinds(st: State, r: State) {
    r.endOfSwitches == st.endOfSwitches && r.redirectStdIn == st.redirectStdIn && r.others == st.others
  }

  /**
   * A cluster that is handled without error binds one value per item, in item order, takes one slot
   * per parameter item (also in the middle of the cluster) and changes nothing else.
   */
  lemma {:induction false} ClusterBindings(c: Config, st: State, items: seq<ShortItem>)
    requires st.idx <= |c.args| && ApplyItems(c, st, items).Ok?
    ensures var r := ApplyItems(c, st, items).value;
            r.idx == st.idx + ParamCount(c, items)
            && OnlyBinds(st, r)
            && |r.bindings| == |st.bindings| + |items|
            && forall k :: 0 <= k < |items| ==> ItemBinding(c, st.idx, items, k, r.bindings, |st.bindings|)
    decreases |items|
  {
    if items != [] {
      var st2 := ApplyItemsFirst(c, st, items);
      var r := ApplyItems(c, st, items).value;
      ClusterBindings(c, st2, items[1..]);
      FirstItemStep(c, st, items[0], st2);
      var n := |st.bindings|;
      assert r.bindings[n] == st2.bindings[n];
      ItemBindingsCons(c, st.idx, items, r.bindings, n, st2.idx, |st2.bindings|);
    }
  }

  /** A cluster handled without error handles its first item without error and the rest from there. */
  lemma ApplyItemsFirst(c: Config, st: State, items: seq<ShortItem>) returns (st2: State)
    requires st.idx <= |c.args| && items != [] && ApplyItems(c, st, items).Ok?
    ensures HandleShortFP(c, st, items[0].ch, items[0].negated) == Ok(st2)
    ensures st2.idx <= |c.args| && ApplyItems(c, st2, items[1..]) == ApplyItems(c, st, items)
  {
    st2 := HandleShortFP(c, st, items[0].ch, items[0].negated).value;
  }

  /** The bindings of a cluster are the binding of its first item followed by those of the rest. */
  lemma ItemBindingsCons(c: Config, base: nat, items: seq<ShortItem>, bindings: seq<Binding>, n: nat, rest: nat, m: nat)
    requires items != [] && n + |items| <= |bindings|
    requires BindsItem(c, base, items[0], bindings[n])
    requires rest == base + (if IsParamItem(c, items[0]) then 1 else 0) && m == n + 1
    requires forall k :: 0 <= k < |items| - 1 ==> ItemBinding(c, rest, items[1..], k, bindings, m)
    ensures forall k :: 0 <= k < |items| ==> ItemBinding(c, base, items, k, bindings, n)
  {
    forall k | 0 <= k < |items| ensures ItemBinding(c, base, items, k, bindings, n) {
      if k == 0 {
        assert items[..0] == [];
      } else {
        ShiftItemBinding(c, base, items, k, bindings, n);
      }
    }
  }

  /** What handling one item does to the state when it succeeds. */
  lemma FirstItemStep(c: Config, st: State, it: ShortItem, st2: State)
    requires st.idx <= |c.args| && HandleShortFP(c, st, it.ch, it.negated) == Ok(st2)
    ensures st2.idx == st.idx + (if IsParamItem(c, it) then 1 else 0)
    ensures OnlyBinds(st, st2)
    ensures |st2.bindings| == |st.bindings| + 1
    ensures BindsItem(c, st.idx, it, st2.bindings[|st.bindings|])
  {
    var fp := c.info.FindShort(it.ch)[0];
    assert HandleShortArg(c, st, fp, it.negated) == Ok(st2);
    assert st2.bindings[|st.bindings|].fp == fp;
  }

  /** Item k of a cluster binds as item k - 1 of the rest does, one slot later when the first item is a parameter. */
  lemma ShiftItemBinding(c: Config, base: nat, items: seq<ShortItem>, k: nat, bindings: seq<Binding>, offset: nat)
    requires 1 <= k < |items| && offset + k < |bindings|
    requires ItemBinding(c, base + (if IsParamItem(c, items[0]) then 1 else 0), items[1..], k - 1, bindings, offset + 1)
    ensures ItemBinding(c, base, items, k, bindings, offset)
  {
    SlotShift(c, items, k);
    assert items[1..][k - 1] == items[k];
  }

  /** The parameters before item k are the first item's, if it is one, and those before item k - 1 of the rest. */
  lemma SlotShift(c: Config, items: seq<ShortItem>, k: nat)
    requires 1 <= k <= |items|
    ensures ParamCount(c, items[..k]) == (if IsParamItem(c, items[0]) then 1 else 0) + ParamCount(c, items[1..][..k - 1])
  {
    assert items[..k] == [items[0]] + items[1..][..k - 1];
    ParamCountCons(c, items[0], items[1..][..k - 1]);
  }

  /** A leading item adds one slot when it is a parameter and none when it is a flag. */
  lemma ParamCountCons(c: Config, it: ShortItem, rest: seq<ShortItem>)
    ensures ParamCount(c, [it] + rest) == (if IsParamItem(c, it) then 1 else 0) + ParamCount(c, rest)
  {
    assert ([it] + rest)[1..] == rest;
  }

  /** A cluster of registered flags always succeeds. */
  lemma {:induction false} FlagClusterSucceeds(c: Config, st: State, items: seq<ShortItem>)
    requires st.idx <= |c.args|
    requires forall k :: 0 <= k < |items| ==> c.info.FindShort(items[k].ch) != [] && c.info.FindShort(items[k].ch)[0].isFlag
    ensures ApplyItems(c, st, items).Ok?
    decreases |items|
  {
    if items != [] {
      var st2 := HandleShortFP(c, st, items[0].ch, items[0].negated).value;
      FlagClusterSucceeds(c, st2, items[1..]);
    }
  }

  /** The first item whose character is not registered ends the scan with unknown short. */
  lemma {:induction false} ClusterStopsAtUnknown(c: Config, st: State, items: seq<ShortItem>, k: nat)
    requires st.idx <= |c.args| && k < |items|
    requires ApplyItems(c, st, items[..k]).Ok? && c.info.FindShort(items[k].ch) == []
    ensures ApplyItems(c, st, items) == Err(UnknownShort(items[k].ch))
    decreases k
  {
    if k == 0 {
    } else {
      assert items[..k][0] == items[0] && items[..k][1..] == items[1..][..k - 1];
      var st2 := HandleShortFP(c, st, items[0].ch, items[0].negated).value;
      ClusterStopsAtUnknown(c, st2, items[1..], k - 1);
    }
  }

  /**
   * `-nab out` with `n` a parameter and `a`, `b` flags: `n` takes the next slot, and `a` and `b` are
   * still read from the same cluster, after it.
   */
  lemma MidClusterParameter(c: Config, n: FPData, a: FPData, b: FPData)
    requires c.args == ["-nab", "out"] && c.info.cmdLnData == [n, a, b]
    requires !n.isFlag && n.shortName == 'n' && a.isFlag && a.shortName == 'a' && b.isFlag && b.shortName == 'b'
    requires c.HelpShort() != "-nab"
    ensures Scan.Scan(c) == Success(false, [], [Binding(n, "out"), Binding(a, TrueText), Binding(b, TrueText)])
  {
    NabIsCluster(c);
    NabItems();
    var r := NabApplied(c, n, a, b);
    assert ScanFrom(c, r) == Ok(r);
  }

  /** The items of `nab` bind `n` to the next slot, then `a` and `b`, and leave every slot read. */
  lemma NabApplied(c: Config, n: FPData, a: FPData, b: FPData) returns (r: State)
    requires c.args == ["-nab", "out"] && c.info.cmdLnData == [n, a, b]
    requires !n.isFlag && n.shortName == 'n' && a.isFlag && a.shortName == 'a' && b.isFlag && b.shortName == 'b'
    ensures ApplyItems(c, Next(Start), [ShortItem('n', false), ShortItem('a', false), ShortItem('b', false)]) == Ok(r)
    ensures r == State(2, false, false, [], [Binding(n, "out"), Binding(a, TrueText), Binding(b, TrueText)])
  {
    var items := [ShortItem('n', false), ShortItem('a', false), ShortItem('b', false)];
    var s1 := Next(Start);
    var s2 := Bind(Next(s1), n, "out");
    var s3 := Bind(s2, a, TrueText);
    r := Bind(s3, b, TrueText);
    NabSteps(c, n, a, b, s1, s2, s3, r);
    var ab := [ShortItem('a', false), ShortItem('b', false)];
    var bOnly := [ShortItem('b', false)];
    assert items[1..] == ab && ab[1..] == bOnly && bOnly[1..] == [];
    ApplyItemsCons(c, s1, items, s2);
    ApplyItemsCons(c, s2, ab, s3);
    ApplyItemsCons(c, s3, bOnly, r);
    assert r.bindings == [Binding(n, "out"), Binding(a, TrueText), Binding(b, TrueText)];
  }

  /** Each item of `nab`, one at a time. */
  lemma NabSteps(c: Config, n: FPData, a: FPData, b: FPData, s1: State, s2: State, s3: State, s4: State)
    requires c.args == ["-nab", "out"] && c.info.cmdLnData == [n, a, b]
    requires !n.isFlag && n.shortName == 'n' && a.isFlag && a.shortName == 'a' && b.isFlag && b.shortName == 'b'
    requires s1 == Next(Start) && s2 == Bind(Next(s1), n, "out") && s3 == Bind(s2, a, TrueText) && s4 == Bind(s3, b, TrueText)
    ensures HandleShortFP(c, s1, 'n', false) == Ok(s2)
    ensures HandleShortFP(c, s2, 'a', false) == Ok(s3)
    ensures HandleShortFP(c, s3, 'b', false) == Ok(s4)
  {
    NabRegistry(c.info, n, a, b);
    OutIsNoSwitch();
    ParamItemBinds(c, s1, n, 'n', false, "out");
    FlagItemBinds(c, s2, a, 'a', false);
    FlagItemBinds(c, s3, b, 'b', false);
  }

  /** An item naming exactly one descriptor, a flag, binds "false" when negated and "true" otherwise. */
  lemma FlagItemBinds(c: Config, st: State, fp: FPData, ch: char, neg: bool)
    requires st.idx <= |c.args| && c.info.FindShort(ch) == [fp] && fp.isFlag
    ensures HandleShortFP(c, st, ch, neg) == Ok(Bind(st, fp, if neg then FalseText else TrueText))
  {
  }

  /** An item naming exactly one descriptor, a parameter, binds the value of the next slot. */
  lemma ParamItemBinds(c: Config, st: State, fp: FPData, ch: char, neg: bool, v: string)
    requires st.idx < |c.args| && c.info.FindShort(ch) == [fp] && !fp.isFlag
    requires GetArgument(c, st.idx, fp.ShortNameStr()) == Ok(v)
    ensures HandleShortFP(c, st, ch, neg) == Ok(Bind(Next(st), fp, v))
  {
  }

  /** A cluster whose first item is handled without error goes on with the rest from the state it leaves. */
  lemma ApplyItemsCons(c: Config, st: State, items: seq<ShortItem>, st2: State)
    requires st.idx <= |c.args| && items != [] && HandleShortFP(c, st, items[0].ch, items[0].negated) == Ok(st2)
    ensures st2.idx <= |c.args| && ApplyItems(c, st, items) == ApplyItems(c, st2, items[1..])
  {
  }

  /** The token `-nab` reaches the cluster grammar and is read as its items. */
  lemma NabIsCluster(c: Config)
    requires c.args == ["-nab", "out"] && c.HelpShort() != "-nab"
    ensures ScanFrom(c, Start) == Continue(c, ApplyItems(c, Next(Start), Decompose("nab")))
  {
    NabNotReserved(c);
    ClusterToken(c, Start, "nab");
  }

  /** `-nab` is a cluster token that none of `--`, `-` and the help switches is equal to. */
  lemma NabNotReserved(c: Config)
    requires c.HelpShort() != "-nab"
    ensures IsCluster("nab") && Strip("-nab") == "-nab" && !IsReserved(c, "-nab")
  {
    StripUnchanged("-nab");
    assert c.HelpLong()[1] == '-';
  }

  lemma NabItems()
    ensures Decompose("nab") == [ShortItem('n', false), ShortItem('a', false), ShortItem('b', false)]
  {
    assert "nab"[1..] == "ab" && "ab"[1..] == "b" && "b"[1..] == [];
  }

  lemma NabRegistry(info: CmdLnInfo, n: FPData, a: FPData, b: FPData)
    requires info.cmdLnData == [n, a, b] && n.shortName == 'n' && a.shortName == 'a' && b.shortName == 'b'
    ensures info.FindShort('n') == [n] && info.FindShort('a') == [a] && info.FindShort('b') == [b]
  {
    ThreeRegistered(info, n, a, b, 'n');
    ThreeRegistered(info, n, a, b, 'a');
    ThreeRegistered(info, n, a, b, 'b');
  }

  /** A lookup in a registry of three descriptors, built by registering them one at a time. */
  lemma ThreeRegistered(info: CmdLnInfo, n: FPData, a: FPData, b: FPData, ch: char)
    requires info.cmdLnData == [n, a, b]
    ensures info.FindShort(ch) == (if n.HasShortName() && n.shortName == ch then [n] else [])
                                  + (if a.HasShortName() && a.shortName == ch then [a] else [])
                                  + (if b.HasShortName() && b.shortName == ch then [b] else [])
  {
    var i0 := CmdLnInfo([], info.cmdLnOther);
    FindShortAfterRegistering(i0, n, ch);
    assert [] + [n] == [n];
    FindShortAfterRegistering(i0.(cmdLnData := [n]), a, ch);
    assert [n] + [a] == [n, a];
    FindShortAfterRegistering(i0.(cmdLnData := [n, a]), b, ch);
    assert [n, a] + [b] == [n, a, b];
  }

  lemma OutIsNoSwitch()
    ensures !MatchesLong("out") && !MatchesShort("out") && Unescape("out") == "out"
  {
    assert LeadingCount("out", IsRegexSpace) == 0;
    assert "out"[0..] == "out";
  }
}
