/**
 * CmdProc: the scanner object. Its handlers update `idx`, `endOfSwitches`, `redirectStdIn` and
 * `others` in place and call `setValue` on descriptors; each method is proved to do what the
 * function of the same name in module Scan says, and to clear exactly the `notSet` bits of the
 * descriptors it binds.
 */
module Proc {
  import opened Wrappers
  import opened Text
  import opened Switches
  import opened Descriptors
  import opened Registry
  import opened Scan
  import opened ScanLemmas

  /** What processCommandLine hands to one sink for the remaining arguments. */
  datatype Delivery = Delivery(sink: OData, values: seq<string>)

  /** How the static processCommandLine ends: it returns, the process exits, or the registry is rejected. */
  datatype Termination = Returned(redirectStdIn: bool) | Exited(error: ErrorKind) | Thrown(problem: ConfigError)

  /** Each sink, in order, with the same list of values. */
  function Deliveries(sinks: seq<OData>, values: seq<string>): (r: seq<Delivery>)
    ensures |r| == |sinks|
    ensures forall k :: 0 <= k < |sinks| ==> r[k] == Delivery(sinks[k], values)
  {
    if sinks == [] then [] else [Delivery(sinks[0], values)] + Deliveries(sinks[1..], values)
  }

  lemma DeliveriesAppend(sinks: seq<OData>, sink: OData, values: seq<string>)
    ensures Deliveries(sinks + [sink], values) == Deliveries(sinks, values) + [Delivery(sink, values)]
  {
  }

  /** A handler's error, if any, with the state it leaves. */
  function AsResult(err: Option<ErrorKind>, st: State): Result<State, ErrorKind> {
    if err.Some? then Err(err.value) else Ok(st)
  }

  /** The descriptors bound in a stretch of the binding log. */
  function BoundIn(bs: seq<Binding>): set<FPData> {
    set k | 0 <= k < |bs| :: bs[k].fp
  }

  /** The notSet bits of the descriptors, in registration order. */
  function NotSets(data: seq<FPData>): (r: seq<bool>)
    reads data
    ensures |r| == |data|
    ensures forall k :: 0 <= k < |data| ==> r[k] == data[k].notSet
  {
    if data == [] then [] else [data[0].notSet] + NotSets(data[1..])
  }

  /** The bits `before` after every descriptor in `bound` has been set. */
  function Cleared(before: seq<bool>, data: seq<FPData>, bound: set<FPData>): (r: seq<bool>)
    requires |before| == |data|
    ensures |r| == |data|
    ensures forall k :: 0 <= k < |data| ==> r[k] == (before[k] && data[k] !in bound)
  {
    seq(|data|, k requires 0 <= k < |data| => before[k] && data[k] !in bound)
  }

  /** Clearing what one stretch of the log binds and then what the next one binds clears what both bind. */
  lemma ClearedCompose(before: seq<bool>, data: seq<FPData>, b0: seq<Binding>, b1: seq<Binding>, b2: seq<Binding>)
    requires |before| == |data| && b0 <= b1 <= b2
    ensures Cleared(Cleared(before, data, BoundIn(b1[|b0|..])), data, BoundIn(b2[|b1|..]))
            == Cleared(before, data, BoundIn(b2[|b0|..]))
  {
    var whole := b2[|b0|..];
    assert BoundIn(whole) == BoundIn(b1[|b0|..]) + BoundIn(b2[|b1|..]) by {
      forall fp | fp in BoundIn(whole) ensures fp in BoundIn(b1[|b0|..]) + BoundIn(b2[|b1|..]) {
        var k :| 0 <= k < |whole| && whole[k].fp == fp;
        if |b0| + k < |b1| {
          assert b1[|b0|..][k] == whole[k];
        } else {
          assert b2[|b1|..][|b0| + k - |b1|] == whole[k];
        }
      }
      forall fp | fp in BoundIn(b1[|b0|..]) ensures fp in BoundIn(whole) {
        var k :| 0 <= k < |b1| - |b0| && b1[|b0|..][k].fp == fp;
        assert whole[k] == b1[|b0|..][k];
      }
      forall fp | fp in BoundIn(b2[|b1|..]) ensures fp in BoundIn(whole) {
        var k :| 0 <= k < |b2| - |b1| && b2[|b1|..][k].fp == fp;
        assert whole[|b1| - |b0| + k] == b2[|b1|..][k];
      }
    }
  }

  /** Nothing bound, nothing cleared. */
  lemma ClearedNothing(before: seq<bool>, data: seq<FPData>, bs: seq<Binding>)
    requires |before| == |data|
    ensures Cleared(before, data, BoundIn(bs[|bs|..])) == before
  {
  }

  class CmdProc {
    const args: seq<string>
    const info: CmdLnInfo
    const allowStdInRedirection: bool
    const helpLongName: string
    const helpShortName: string
    var others: seq<string>
    var redirectStdIn: bool
    var endOfSwitches: bool
    var idx: nat
    /** The values bound so far, in order: the trace of the setValue calls. */
    var bindings: seq<Binding>
    /** The lists handed to the others sinks, in order. */
    var delivered: seq<Delivery>

    predicate Valid()
      reads this
    {
      idx <= |args|
    }

    function Settings(): Config {
      Config(args, info, allowStdInRedirection, helpLongName, helpShortName)
    }

    function Snapshot(): State
      reads this
    {
      State(idx, endOfSwitches, redirectStdIn, others, bindings)
    }

    /** The constructor, given the registry that findAnnotatedMembers builds. */
    constructor(args: seq<string>, allowStdInRedirection: bool, info: CmdLnInfo, helpLongName: string, helpShortName: string)
      ensures this.args == args && this.allowStdInRedirection == allowStdInRedirection && this.info == info
      ensures this.helpLongName == helpLongName && this.helpShortName == helpShortName
      ensures Valid() && Snapshot() == Start && delivered == []
    {
      this.args := args;
      this.allowStdInRedirection := allowStdInRedirection;
      this.info := info;
      this.helpLongName := helpLongName;
      this.helpShortName := helpShortName;
      others := [];
      redirectStdIn := false;
      endOfSwitches := false;
      idx := 0;
      bindings := [];
      delivered := [];
    }

    /**
     * processCommandLine: every slot is read once, left to right; the final `others` list goes to
     * every sink and `redirectStdIn` is returned. An error is the process exiting.
     */
    method ProcessCommandLine() returns (r: Result<bool, ErrorKind>)
      requires Valid()
      modifies this, info.cmdLnData
      ensures Valid()
      ensures r.Ok? <==> ScanFrom(Settings(), old(Snapshot())).Ok?
      ensures r.Err? ==> r.error == ScanFrom(Settings(), old(Snapshot())).error
      ensures r.Ok? ==> Snapshot() == ScanFrom(Settings(), old(Snapshot())).value && r.value == redirectStdIn
      ensures r.Ok? ==> delivered == old(delivered) + Deliveries(info.cmdLnOther, others)
      ensures r.Err? ==> delivered == old(delivered)
      ensures old(bindings) <= bindings
      ensures NotSets(info.cmdLnData) == Cleared(old(NotSets(info.cmdLnData)), info.cmdLnData, BoundIn(bindings[|old(bindings)|..]))
    {
      ghost var c := Settings();
      ghost var goal := ScanFrom(c, Snapshot());
      ClearedNothing(NotSets(info.cmdLnData), info.cmdLnData, bindings);
      var err: Option<ErrorKind> := None;
      while idx < |args| && err.None?
        invariant Valid()
        invariant err.None? ==> ScanFrom(c, Snapshot()) == goal
        invariant err.Some? ==> goal == Err(err.value)
        invariant old(bindings) <= bindings
        invariant NotSets(info.cmdLnData) == Cleared(old(NotSets(info.cmdLnData)), info.cmdLnData, BoundIn(bindings[|old(bindings)|..]))
        modifies this`idx, this`endOfSwitches, this`redirectStdIn, this`others, this`bindings, info.cmdLnData
        decreases if err.None? then 1 else 0, |args| - idx
      {
        ghost var b1 := bindings;
        ScanUnfold(c, Snapshot());
        err := NextArgument();
        ClearedCompose(old(NotSets(info.cmdLnData)), info.cmdLnData, old(bindings), b1, bindings);
      }
      // handleUserError exits at the first failing token: nothing is delivered.
      if err.Some? {
        return Err(err.value);
      }
      ScanDone(c, Snapshot());
      assert delivered == old(delivered);
      DeliverOthers();
      return Ok(redirectStdIn);
    }

    /** One pass of the loop in processCommandLine: take the next slot; after `--` keep it as it is, otherwise hand it to the handler. */
    method NextArgument() returns (err: Option<ErrorKind>)
      requires Valid() && idx < |args|
      modifies this`idx, this`endOfSwitches, this`redirectStdIn, this`others, this`bindings, info.cmdLnData
      ensures Valid()
      ensures AsResult(err, Snapshot()) == Step(Settings(), old(Snapshot()))
      ensures old(bindings) <= bindings
      ensures NotSets(info.cmdLnData) == Cleared(old(NotSets(info.cmdLnData)), info.cmdLnData, BoundIn(bindings[|old(bindings)|..]))
    {
      ghost var c := Settings();
      ghost var st := Snapshot();
      ghost var ns0 := NotSets(info.cmdLnData);
      var rawArg := args[idx];
      idx := idx + 1;
      assert NotSets(info.cmdLnData) == ns0;
      if endOfSwitches {
        others := others + [rawArg];
        assert Snapshot() == Next(st).(others := st.others + [rawArg]);
        assert NotSets(info.cmdLnData) == ns0;
        ClearedNothing(ns0, info.cmdLnData, bindings);
        err := None;
      } else {
        ghost var pre := Snapshot();
        assert pre == Next(st);
        StepHandles(c, st);
        err := Handler(Strip(rawArg), rawArg);
      }
    }

    /** `cmdLnOther().forEach(od -> od.setValues(others))`: every sink, in order, gets the same list. */
    method DeliverOthers()
      modifies this`delivered
      ensures delivered == old(delivered) + Deliveries(info.cmdLnOther, others)
    {
      var i := 0;
      while i < |info.cmdLnOther|
        invariant i <= |info.cmdLnOther|
        invariant delivered == old(delivered) + Deliveries(info.cmdLnOther[..i], others)
      {
        assert info.cmdLnOther[..i + 1] == info.cmdLnOther[..i] + [info.cmdLnOther[i]];
        DeliveriesAppend(info.cmdLnOther[..i], info.cmdLnOther[i], others);
        delivered := delivered + [Delivery(info.cmdLnOther[i], others)];
        i := i + 1;
      }
      assert info.cmdLnOther[..i] == info.cmdLnOther;
    }

    /** handler */
    method Handler(arg: string, rawArg: string) returns (err: Option<ErrorKind>)
      requires Valid() && arg == Strip(rawArg)
      modifies this`idx, this`endOfSwitches, this`redirectStdIn, this`others, this`bindings, info.cmdLnData
      ensures Valid()
      ensures AsResult(err, Snapshot()) == Scan.Handler(Settings(), old(Snapshot()), rawArg)
      ensures old(bindings) <= bindings
      ensures NotSets(info.cmdLnData) == Cleared(old(NotSets(info.cmdLnData)), info.cmdLnData, BoundIn(bindings[|old(bindings)|..]))
    {
      ClearedNothing(NotSets(info.cmdLnData), info.cmdLnData, bindings);
      if arg == "--" {
        endOfSwitches := true;
        err := None;
      } else if arg == "-" {
        err := HandleRedirectionSwitch();
      } else if arg == Settings().HelpLong() || arg == Settings().HelpShort() {
        err := Some(HelpRequested);
      } else {
        err := HandleFlagsAndParams(Unescape(rawArg));
      }
    }

    /** handleRedirectionSwitch */
    method HandleRedirectionSwitch() returns (err: Option<ErrorKind>)
      modifies this`redirectStdIn
      ensures AsResult(err, Snapshot()) == Scan.HandleRedirectionSwitch(Settings(), old(Snapshot()))
    {
      if allowStdInRedirection {
        redirectStdIn := true;
        err := None;
      } else {
        err := Some(CannotRedirectStdIn);
      }
    }

    /** handleFlagsAndParams */
    method HandleFlagsAndParams(rawArg: string) returns (err: Option<ErrorKind>)
      requires Valid()
      modifies this`idx, this`others, this`bindings, info.cmdLnData
      ensures Valid()
      ensures AsResult(err, Snapshot()) == Scan.HandleLong(Settings(), old(Snapshot()), rawArg)
      ensures old(bindings) <= bindings
      ensures NotSets(info.cmdLnData) == Cleared(old(NotSets(info.cmdLnData)), info.cmdLnData, BoundIn(bindings[|old(bindings)|..]))
    {
      err := HandleLong(rawArg);
    }

    /** handleLong */
    method HandleLong(rawArg: string) returns (err: Option<ErrorKind>)
      requires Valid()
      modifies this`idx, this`others, this`bindings, info.cmdLnData
      ensures Valid()
      ensures AsResult(err, Snapshot()) == Scan.HandleLong(Settings(), old(Snapshot()), rawArg)
      ensures old(bindings) <= bindings
      ensures NotSets(info.cmdLnData) == Cleared(old(NotSets(info.cmdLnData)), info.cmdLnData, BoundIn(bindings[|old(bindings)|..]))
    {
      match ParseLong(rawArg)
      case Some(LongSwitch(name, Some(value))) =>
        err := HandleLongFPValue(name, value);
      case Some(LongSwitch(name, None)) =>
        err := HandleLongFP(name);
      case None =>
        err := HandleShort(rawArg);
    }

    /** handleLongFP(name) */
    method HandleLongFP(name: string) returns (err: Option<ErrorKind>)
      requires Valid()
      modifies this`idx, this`bindings, info.cmdLnData
      ensures Valid()
      ensures AsResult(err, Snapshot()) == Scan.HandleLongFP(Settings(), old(Snapshot()), name)
      ensures old(bindings) <= bindings
      ensures NotSets(info.cmdLnData) == Cleared(old(NotSets(info.cmdLnData)), info.cmdLnData, BoundIn(bindings[|old(bindings)|..]))
    {
      var fps := info.FindLong(name);
      if fps == [] {
        ClearedNothing(NotSets(info.cmdLnData), info.cmdLnData, bindings);
        err := Some(UnknownLong(name));
      } else {
        err := HandleLongArg(fps[0]);
      }
    }

    /** handleLongFP(name, value) */
    method HandleLongFPValue(name: string, value: string) returns (err: Option<ErrorKind>)
      requires Valid()
      modifies this`bindings, info.cmdLnData
      ensures AsResult(err, Snapshot()) == Scan.HandleLongFPValue(Settings(), old(Snapshot()), name, value)
      ensures old(bindings) <= bindings
      ensures NotSets(info.cmdLnData) == Cleared(old(NotSets(info.cmdLnData)), info.cmdLnData, BoundIn(bindings[|old(bindings)|..]))
    {
      var fps := info.FindLongOfKind(name, false);
      if fps == [] {
        ClearedNothing(NotSets(info.cmdLnData), info.cmdLnData, bindings);
        err := Some(UnknownLong(name));
      } else {
        SetValue(fps[0], value);
        err := None;
      }
    }

    /** handleLongArg */
    method HandleLongArg(fp: FPData) returns (err: Option<ErrorKind>)
      requires Valid() && fp in info.cmdLnData
      modifies this`idx, this`bindings, info.cmdLnData
      ensures Valid()
      ensures AsResult(err, Snapshot()) == Scan.HandleLongArg(Settings(), old(Snapshot()), fp)
      ensures old(bindings) <= bindings
      ensures NotSets(info.cmdLnData) == Cleared(old(NotSets(info.cmdLnData)), info.cmdLnData, BoundIn(bindings[|old(bindings)|..]))
    {
      if fp.isFlag {
        SetValue(fp, TrueText);
        err := None;
      } else if idx < |args| {
        var value := args[idx];
        idx := idx + 1;
        SetValue(fp, value);
        err := None;
      } else {
        ClearedNothing(NotSets(info.cmdLnData), info.cmdLnData, bindings);
        err := Some(MissingArgument(fp.longName));
      }
    }

    /** handleShort: the loop over the code points of the cluster. */
    method HandleShort(rawArg: string) returns (err: Option<ErrorKind>)
      requires Valid()
      modifies this`idx, this`others, this`bindings, info.cmdLnData
      ensures Valid()
      ensures AsResult(err, Snapshot()) == Scan.HandleShort(Settings(), old(Snapshot()), rawArg)
      ensures old(bindings) <= bindings
      ensures NotSets(info.cmdLnData) == Cleared(old(NotSets(info.cmdLnData)), info.cmdLnData, BoundIn(bindings[|old(bindings)|..]))
    {
      ClearedNothing(NotSets(info.cmdLnData), info.cmdLnData, bindings);
      match ParseShort(rawArg)
      case Some(cp) =>
        ghost var c := Settings();
        ghost var goal := ApplyItems(c, Snapshot(), Decompose(cp));
        var i := 0;
        assert cp[i..] == cp;
        while i < |cp|
          invariant i <= |cp| && Valid()
          invariant ApplyItems(c, Snapshot(), Decompose(cp[i..])) == goal
          invariant old(bindings) <= bindings
          invariant NotSets(info.cmdLnData) == Cleared(old(NotSets(info.cmdLnData)), info.cmdLnData, BoundIn(bindings[|old(bindings)|..]))
          decreases |cp| - i
        {
          DecomposeStep(cp, i);
          ghost var b1 := bindings;
          var ch := cp[i];
          i := i + 1;
          var neg := i < |cp| && cp[i] == '-';
          if neg {
            i := i + 1;
          }
          err := HandleShortFP(ch, neg);
          ClearedCompose(old(NotSets(info.cmdLnData)), info.cmdLnData, old(bindings), b1, bindings);
          if err.Some? {
            return;
          }
        }
        assert cp[i..] == [];
        err := None;
      case None =>
        others := others + [rawArg];
        err := None;
    }

    /** handleShortFP */
    method HandleShortFP(ch: char, neg: bool) returns (err: Option<ErrorKind>)
      requires Valid()
      modifies this`idx, this`bindings, info.cmdLnData
      ensures Valid()
      ensures AsResult(err, Snapshot()) == Scan.HandleShortFP(Settings(), old(Snapshot()), ch, neg)
      ensures old(bindings) <= bindings
      ensures NotSets(info.cmdLnData) == Cleared(old(NotSets(info.cmdLnData)), info.cmdLnData, BoundIn(bindings[|old(bindings)|..]))
    {
      var fps := info.FindShort(ch);
      if fps == [] {
        ClearedNothing(NotSets(info.cmdLnData), info.cmdLnData, bindings);
        err := Some(UnknownShort(ch));
      } else {
        err := HandleShortArg(fps[0], neg);
      }
    }

    /** handleShortArg */
    method HandleShortArg(fp: FPData, neg: bool) returns (err: Option<ErrorKind>)
      requires Valid() && fp in info.cmdLnData && fp.HasShortName()
      modifies this`idx, this`bindings, info.cmdLnData
      ensures Valid()
      ensures AsResult(err, Snapshot()) == Scan.HandleShortArg(Settings(), old(Snapshot()), fp, neg)
      ensures old(bindings) <= bindings
      ensures NotSets(info.cmdLnData) == Cleared(old(NotSets(info.cmdLnData)), info.cmdLnData, BoundIn(bindings[|old(bindings)|..]))
    {
      if fp.isFlag {
        SetValue(fp, if neg then FalseText else TrueText);
        err := None;
      } else if idx < |args| {
        var value, e := GetArgument(fp.ShortNameStr());
        if e.Some? {
          ClearedNothing(NotSets(info.cmdLnData), info.cmdLnData, bindings);
          err := e;
        } else {
          SetValue(fp, value);
          err := None;
        }
      } else {
        ClearedNothing(NotSets(info.cmdLnData), info.cmdLnData, bindings);
        err := Some(MissingArgument(fp.ShortNameStr()));
      }
    }

    /** getArgument: the value slot of a short parameter. */
    method GetArgument(name: string) returns (value: string, err: Option<ErrorKind>)
      requires idx < |args|
      modifies this`idx
      ensures (if err.Some? then Err(err.value) else Ok(value)) == Scan.GetArgument(Settings(), old(idx), name)
      ensures err.None? ==> idx == old(idx) + 1
      ensures err.Some? ==> idx == old(idx)
    {
      value := args[idx];
      if MatchesLong(value) || MatchesShort(value) {
        err := Some(MissingArgument(name));
        return;
      }
      value := Unescape(value);
      idx := idx + 1;
      err := None;
    }

    /** FPData.setValue, and the entry it leaves in the binding log. */
    method SetValue(fp: FPData, value: string)
      requires fp in info.cmdLnData
      modifies this`bindings, fp
      ensures bindings == old(bindings) + [Binding(fp, value)]
      ensures NotSets(info.cmdLnData) == Cleared(old(NotSets(info.cmdLnData)), info.cmdLnData, BoundIn(bindings[|old(bindings)|..]))
    {
      var _ := fp.SetValue(value);
      bindings := bindings + [Binding(fp, value)];
      assert bindings[|old(bindings)|..] == [Binding(fp, value)];
      assert [Binding(fp, value)][0].fp == fp;
      assert BoundIn([Binding(fp, value)]) == {fp};
    }

    /**
     * The static processCommandLine: the registry is validated first (a conflict is an exception),
     * then a fresh scanner processes the command line.
     */
    static method Run(args: seq<string>, allowStdInRedirection: bool, data: seq<FPData>, sinks: seq<OData>,
                      helpLongName: string, helpShortName: string) returns (r: Termination)
      modifies data
      ensures var info := CmdLnInfo(data, sinks);
              r == match info.Validate()
                   case Err(e) => Thrown(e)
                   case Ok(_) =>
                     match Scan.Scan(Config(args, info, allowStdInRedirection, helpLongName, helpShortName))
                     case Success(redirect, _, _) => Returned(redirect)
                     case Fatal(e) => Exited(e)
    {
      var info := CmdLnInfo(data, sinks);
      match info.Validate()
      case Err(e) =>
        r := Thrown(e);
      case Ok(validated) =>
        var proc := new CmdProc(args, allowStdInRedirection, validated, helpLongName, helpShortName);
        var res := proc.ProcessCommandLine();
        r := if res.Ok? then Returned(res.value) else Exited(res.error);
    }
  }
}
