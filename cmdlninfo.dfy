/**
 * CmdLnInfo: the registry of flag and parameter descriptors and of the sinks for the remaining
 * arguments. Lookups keep registration order; validation rejects a name used by a flag and by a
 * parameter.
 */
module Registry {
  import opened Wrappers
  import opened Text
  import opened Seqs
  import opened Descriptors

  /** A sink for the arguments no switch claims: an array field or a list field or method. */
  datatype OData = OData(accessibleObject: Target, isArray: bool)

  /** The message line reporting a long-name conflict. */
  function LongLine(name: string): string {
    "--" + name
  }

  /** The message line reporting a short-name conflict. */
  function ShortLine(ch: char): string {
    "-" + [ch]
  }

  datatype CmdLnInfo = CmdLnInfo(cmdLnData: seq<FPData>, cmdLnOther: seq<OData>) {

    /** The flags (isFlag) or the parameters (!isFlag), in registration order. */
    function StreamDataOfKind(isFlag: bool): (r: seq<FPData>)
      ensures forall i :: 0 <= i < |r| ==> r[i] in cmdLnData && r[i].isFlag == isFlag
      ensures forall i :: 0 <= i < |cmdLnData| && cmdLnData[i].isFlag == isFlag ==> cmdLnData[i] in r
    {
      Filter(cmdLnData, (fp: FPData) => fp.isFlag == isFlag)
    }

    function StreamLongNames(): (r: seq<FPData>)
      ensures forall i :: 0 <= i < |r| ==> r[i] in cmdLnData && r[i].HasLongName()
      ensures forall i :: 0 <= i < |cmdLnData| && cmdLnData[i].HasLongName() ==> cmdLnData[i] in r
    {
      Filter(cmdLnData, (fp: FPData) => fp.HasLongName())
    }

    /** The descriptors of one kind that have a long name, in registration order. */
    function StreamLongNamesOfKind(isFlag: bool): (r: seq<FPData>)
      ensures forall i :: 0 <= i < |r| ==> r[i] in cmdLnData && r[i].isFlag == isFlag && r[i].HasLongName()
      ensures forall i :: 0 <= i < |cmdLnData| && cmdLnData[i].isFlag == isFlag && cmdLnData[i].HasLongName()
                ==> cmdLnData[i] in r
    {
      Filter(StreamDataOfKind(isFlag), (fp: FPData) => fp.HasLongName())
    }

    function StreamShortNames(): (r: seq<FPData>)
      ensures forall i :: 0 <= i < |r| ==> r[i] in cmdLnData && r[i].HasShortName()
      ensures forall i :: 0 <= i < |cmdLnData| && cmdLnData[i].HasShortName() ==> cmdLnData[i] in r
    {
      Filter(cmdLnData, (fp: FPData) => fp.HasShortName())
    }

    /** The descriptors of one kind that have a short name, in registration order. */
    function StreamShortNamesOfKind(isFlag: bool): (r: seq<FPData>)
      ensures forall i :: 0 <= i < |r| ==> r[i] in cmdLnData && r[i].isFlag == isFlag && r[i].HasShortName()
      ensures forall i :: 0 <= i < |cmdLnData| && cmdLnData[i].isFlag == isFlag && cmdLnData[i].HasShortName()
                ==> cmdLnData[i] in r
    {
      Filter(StreamDataOfKind(isFlag), (fp: FPData) => fp.HasShortName())
    }

    /** streamData(name, isLong, isFlag): the descriptors of one kind whose long name, or short name as a string, is `name`. */
    function StreamDataNamed(name: string, isLong: bool, isFlag: bool): seq<FPData> {
      Filter(if isLong then StreamLongNamesOfKind(isFlag) else StreamShortNamesOfKind(isFlag),
             (d: FPData) => name == if isLong then d.longName else d.ShortNameStr())
    }

    /** findLong(name): exactly the descriptors whose long name is `name`, in registration order. */
    function FindLong(name: string): (r: seq<FPData>)
      ensures forall i :: 0 <= i < |r| ==> r[i] in cmdLnData && r[i].HasLongName() && r[i].longName == name
      ensures forall i :: 0 <= i < |cmdLnData| && cmdLnData[i].HasLongName() && cmdLnData[i].longName == name
                ==> cmdLnData[i] in r
      ensures name == [] ==> r == []
    {
      var r := Filter(cmdLnData, (fp: FPData) => fp.HasLongName() && name == fp.longName);
      assert r != [] ==> r[0].HasLongName() && name == r[0].longName;
      r
    }

    /** findLong(name, isFlag) */
    function FindLongOfKind(name: string, isFlag: bool): (r: seq<FPData>)
      ensures forall i :: 0 <= i < |r| ==>
                r[i] in cmdLnData && r[i].isFlag == isFlag && r[i].HasLongName() && r[i].longName == name
    {
      Filter(cmdLnData, (fp: FPData) => fp.isFlag == isFlag && fp.HasLongName() && name == fp.longName)
    }

    /** findShort(ch): exactly the descriptors whose short name is `ch`, in registration order. */
    function FindShort(ch: char): (r: seq<FPData>)
      ensures forall i :: 0 <= i < |r| ==> r[i] in cmdLnData && r[i].HasShortName() && r[i].shortName == ch
      ensures forall i :: 0 <= i < |cmdLnData| && cmdLnData[i].HasShortName() && cmdLnData[i].shortName == ch
                ==> cmdLnData[i] in r
      ensures ch == NoShortName ==> r == []
    {
      var r := Filter(cmdLnData, (fp: FPData) => fp.HasShortName() && fp.shortName == ch);
      assert r != [] ==> r[0].HasShortName() && r[0].shortName == ch;
      r
    }

    /** findShort(ch, isFlag) */
    function FindShortOfKind(ch: char, isFlag: bool): (r: seq<FPData>)
      ensures forall i :: 0 <= i < |r| ==>
                r[i] in cmdLnData && r[i].isFlag == isFlag && r[i].HasShortName() && r[i].shortName == ch
    {
      Filter(cmdLnData, (fp: FPData) => fp.isFlag == isFlag && fp.HasShortName() && fp.shortName == ch)
    }

    /** The long names registered by descriptors of one kind. */
    ghost function LongNames(isFlag: bool): set<string> {
      set i | 0 <= i < |cmdLnData| && cmdLnData[i].isFlag == isFlag && cmdLnData[i].HasLongName() :: cmdLnData[i].longName
    }

    /** The short names registered by descriptors of one kind. */
    ghost function ShortNames(isFlag: bool): set<char> {
      set i | 0 <= i < |cmdLnData| && cmdLnData[i].isFlag == isFlag && cmdLnData[i].HasShortName() :: cmdLnData[i].shortName
    }

    /** getLongNameConflicts: the long names that are both a flag's and a parameter's. */
    function LongNameConflicts(): (r: seq<string>)
      ensures forall n :: n in r <==> n in LongNames(true) && n in LongNames(false)
    {
      LongNamesOfStream(true);
      LongNamesOfStream(false);
      Intersection(Map(StreamLongNamesOfKind(true), (fp: FPData) => fp.longName),
                   Map(StreamLongNamesOfKind(false), (fp: FPData) => fp.longName))
    }

    /** getShortNameConflicts: the short names that are both a flag's and a parameter's. */
    function ShortNameConflicts(): (r: seq<char>)
      ensures forall c :: c in r <==> c in ShortNames(true) && c in ShortNames(false)
    {
      ShortNamesOfStream(true);
      ShortNamesOfStream(false);
      Intersection(Map(StreamShortNamesOfKind(true), (fp: FPData) => fp.shortName),
                   Map(StreamShortNamesOfKind(false), (fp: FPData) => fp.shortName))
    }

    /** The lines of the validation message: every long conflict as `--name`, then every short one as `-c`. */
    function ConflictLines(): seq<string> {
      Map(LongNameConflicts(), LongLine) + Map(ShortNameConflicts(), ShortLine)
    }

    /** Some name belongs both to a flag and to a parameter. */
    ghost predicate HasNameConflict() {
      LongNames(true) * LongNames(false) != {} || ShortNames(true) * ShortNames(false) != {}
    }

    /** validate: fails, naming every conflict, exactly when a name is both a flag's and a parameter's; otherwise hands back this registry. */
    function Validate(): (r: Result<CmdLnInfo, ConfigError>)
      ensures r.Ok? <==> !HasNameConflict()
      ensures r.Ok? ==> r.value == this
      ensures r.Err? ==> r.error.SwitchAndValue?
    {
      var lines := ConflictLines();
      var msg := Join(lines, "\n");
      ConflictLinesNonEmpty();
      if msg != [] then Err(SwitchAndValue(lines)) else Ok(this)
    }

    lemma LongNamesOfStream(isFlag: bool)
      ensures forall n :: n in Map(StreamLongNamesOfKind(isFlag), (fp: FPData) => fp.longName) <==> n in LongNames(isFlag)
    {
      var s := StreamLongNamesOfKind(isFlag);
      var f := (fp: FPData) => fp.longName;
      forall n | n in Map(s, f) ensures n in LongNames(isFlag) {
        var i :| 0 <= i < |s| && Map(s, f)[i] == n;
        var j :| 0 <= j < |cmdLnData| && cmdLnData[j] == s[i];
      }
      forall n | n in LongNames(isFlag) ensures n in Map(s, f) {
        var j :| 0 <= j < |cmdLnData| && cmdLnData[j].isFlag == isFlag && cmdLnData[j].HasLongName()
                 && cmdLnData[j].longName == n;
        MapMember(s, f, cmdLnData[j]);
      }
    }

    lemma ShortNamesOfStream(isFlag: bool)
      ensures forall c :: c in Map(StreamShortNamesOfKind(isFlag), (fp: FPData) => fp.shortName) <==> c in ShortNames(isFlag)
    {
      var s := StreamShortNamesOfKind(isFlag);
      var f := (fp: FPData) => fp.shortName;
      forall c | c in Map(s, f) ensures c in ShortNames(isFlag) {
        var i :| 0 <= i < |s| && Map(s, f)[i] == c;
        var j :| 0 <= j < |cmdLnData| && cmdLnData[j] == s[i];
      }
      forall c | c in ShortNames(isFlag) ensures c in Map(s, f) {
        var j :| 0 <= j < |cmdLnData| && cmdLnData[j].isFlag == isFlag && cmdLnData[j].HasShortName()
                 && cmdLnData[j].shortName == c;
        MapMember(s, f, cmdLnData[j]);
      }
    }

    /** The joined message is empty exactly when there is no conflict. */
    lemma ConflictLinesNonEmpty()
      ensures Join(ConflictLines(), "\n") != [] <==> HasNameConflict()
    {
      var longs := LongNameConflicts();
      var shorts := ShortNameConflicts();
      var lines := ConflictLines();
      assert |lines| == |longs| + |shorts|;
      assert HasNameConflict() <==> longs != [] || shorts != [] by {
        if longs != [] {
          assert longs[0] in longs;
          assert longs[0] in LongNames(true) * LongNames(false);
        }
        if shorts != [] {
          assert shorts[0] in shorts;
          assert shorts[0] in ShortNames(true) * ShortNames(false);
        }
        if LongNames(true) * LongNames(false) != {} {
          var n :| n in LongNames(true) * LongNames(false);
          assert n in longs;
        }
        if ShortNames(true) * ShortNames(false) != {} {
          var c :| c in ShortNames(true) * ShortNames(false);
          assert c in shorts;
        }
      }
      if lines != [] {
        assert lines[0] != [];
        assert lines[0] <= Join(lines, "\n");
      }
    }
  }

  /** A validation failure says `--name` for every long conflict and `-c` for every short one, longs first. */
  lemma ValidateReportsEveryConflict(info: CmdLnInfo)
    requires info.HasNameConflict()
    ensures info.Validate() == Err(SwitchAndValue(info.ConflictLines()))
    ensures forall n :: n != [] ==>
              (("--" + n) in info.ConflictLines() <==> n in info.LongNames(true) && n in info.LongNames(false))
    ensures forall c :: ("-" + [c]) in info.ConflictLines() <==> c in info.ShortNames(true) && c in info.ShortNames(false)
    ensures forall i :: 0 <= i < |info.ConflictLines()| ==>
              IsLongLine(info.ConflictLines()[i]) || IsShortLine(info.ConflictLines()[i])
    ensures forall i, j :: 0 <= i < j < |info.ConflictLines()| && IsShortLine(info.ConflictLines()[i])
              ==> !IsLongLine(info.ConflictLines()[j])
  {
    info.ConflictLinesNonEmpty();
    ConflictLinesShape(info);
    ConflictLinesNameLongs(info);
    ConflictLinesNameShorts(info);
  }

  /** Line k of the message: `--` and the k-th long conflict, then `-` and each short conflict. */
  lemma ConflictLinesAt(info: CmdLnInfo)
    ensures |info.ConflictLines()| == |info.LongNameConflicts()| + |info.ShortNameConflicts()|
    ensures forall k :: 0 <= k < |info.LongNameConflicts()| ==>
              info.ConflictLines()[k] == "--" + info.LongNameConflicts()[k]
    ensures forall k :: |info.LongNameConflicts()| <= k < |info.ConflictLines()| ==>
              info.ConflictLines()[k] == "-" + [info.ShortNameConflicts()[k - |info.LongNameConflicts()|]]
  {
    MapConcatAt(info.LongNameConflicts(), LongLine, info.ShortNameConflicts(), ShortLine);
  }

  /** Every line is a long-conflict line or a short-conflict line, and the long ones come first. */
  lemma ConflictLinesShape(info: CmdLnInfo)
    ensures forall i :: 0 <= i < |info.ConflictLines()| ==>
              IsLongLine(info.ConflictLines()[i]) || IsShortLine(info.ConflictLines()[i])
    ensures forall i, j :: 0 <= i < j < |info.ConflictLines()| && IsShortLine(info.ConflictLines()[i])
              ==> !IsLongLine(info.ConflictLines()[j])
  {
    var longs := info.LongNameConflicts();
    var lines := info.ConflictLines();
    forall k | 0 <= k < |lines| ensures if k < |longs| then IsLongLine(lines[k]) else IsShortLine(lines[k]) {
      if k < |longs| {
        var n := LongConflictLine(info, k);
      } else {
        var ch := ShortConflictLine(info, k);
      }
    }
    forall i, j | 0 <= i < j < |lines| && IsShortLine(lines[i]) ensures !IsLongLine(lines[j]) {
      ShortLineIndex(info, i);
      var ch := ShortConflictLine(info, j);
    }
  }

  lemma ConflictLinesNameLongs(info: CmdLnInfo)
    ensures forall n :: n != [] ==>
              (("--" + n) in info.ConflictLines() <==> n in info.LongNames(true) && n in info.LongNames(false))
  {
    forall n | n != [] ensures ("--" + n) in info.ConflictLines() <==> n in info.LongNames(true) && n in info.LongNames(false) {
      ConflictLineNamesLong(info, n);
    }
  }

  lemma ConflictLineNamesLong(info: CmdLnInfo, n: string)
    requires n != []
    ensures ("--" + n) in info.ConflictLines() <==> n in info.LongNames(true) && n in info.LongNames(false)
  {
    if ("--" + n) in info.ConflictLines() {
      LongLineIsConflict(info, n);
    }
    if n in info.LongNames(true) && n in info.LongNames(false) {
      MapMember(info.LongNameConflicts(), LongLine, n);
    }
  }

  lemma LongLineIsConflict(info: CmdLnInfo, n: string)
    requires n != [] && ("--" + n) in info.ConflictLines()
    ensures n in info.LongNameConflicts()
  {
    var lines := info.ConflictLines();
    var k :| 0 <= k < |lines| && lines[k] == "--" + n;
    ConflictLinesAt(info);
    if k < |info.LongNameConflicts()| {
      var m := LongConflictLine(info, k);
      assert n == lines[k][2..] == m;
    } else {
      var ch := ShortConflictLine(info, k);
      assert false;
    }
  }

  lemma ConflictLinesNameShorts(info: CmdLnInfo)
    ensures forall c :: ("-" + [c]) in info.ConflictLines() <==> c in info.ShortNames(true) && c in info.ShortNames(false)
  {
    forall c ensures ("-" + [c]) in info.ConflictLines() <==> c in info.ShortNames(true) && c in info.ShortNames(false) {
      ConflictLineNamesShort(info, c);
    }
  }

  lemma ConflictLineNamesShort(info: CmdLnInfo, c: char)
    ensures ("-" + [c]) in info.ConflictLines() <==> c in info.ShortNames(true) && c in info.ShortNames(false)
  {
    if ("-" + [c]) in info.ConflictLines() {
      ShortLineIsConflict(info, c);
    }
    if c in info.ShortNames(true) && c in info.ShortNames(false) {
      var shorts := info.ShortNameConflicts();
      MapMember(shorts, ShortLine, c);
    }
  }

  lemma ShortLineIsConflict(info: CmdLnInfo, c: char)
    requires ("-" + [c]) in info.ConflictLines()
    ensures c in info.ShortNameConflicts()
  {
    var lines := info.ConflictLines();
    var k :| 0 <= k < |lines| && lines[k] == "-" + [c];
    ShortLineIndex(info, k);
    var ch := ShortConflictLine(info, k);
    assert c == lines[k][1] == ch;
  }

  /** A two-character line of the message reports a short conflict. */
  lemma ShortLineIndex(info: CmdLnInfo, k: nat)
    requires k < |info.ConflictLines()| && |info.ConflictLines()[k]| == 2
    ensures k >= |info.LongNameConflicts()|
  {
    if k < |info.LongNameConflicts()| {
      var n := LongConflictLine(info, k);
    }
  }

  /** The shape of a long-conflict line. */
  predicate IsLongLine(line: string) {
    |line| >= 3 && line[0] == '-' && line[1] == '-'
  }

  /** The shape of a short-conflict line. */
  predicate IsShortLine(line: string) {
    |line| == 2 && line[0] == '-'
  }

  /** When no name contains a newline, the failure message reads back as exactly one line per conflict. */
  lemma ValidateMessageLines(info: CmdLnInfo)
    requires info.HasNameConflict()
    requires forall i :: 0 <= i < |info.cmdLnData| ==> '\n' !in info.cmdLnData[i].longName
    requires forall i :: 0 <= i < |info.cmdLnData| ==> info.cmdLnData[i].shortName != '\n'
    ensures info.Validate().Err?
    ensures Split(info.Validate().error.Message(), '\n') == info.ConflictLines()
  {
    info.ConflictLinesNonEmpty();
    var lines := info.ConflictLines();
    forall k | 0 <= k < |lines| ensures '\n' !in lines[k] {
      ConflictLineHasNoNewline(info, k);
    }
    SplitJoin(lines, '\n');
  }

  /** A conflict line holds no newline when no registered name does. */
  lemma ConflictLineHasNoNewline(info: CmdLnInfo, k: nat)
    requires forall i :: 0 <= i < |info.cmdLnData| ==> '\n' !in info.cmdLnData[i].longName
    requires forall i :: 0 <= i < |info.cmdLnData| ==> info.cmdLnData[i].shortName != '\n'
    requires k < |info.ConflictLines()|
    ensures '\n' !in info.ConflictLines()[k]
  {
    if k < |info.LongNameConflicts()| {
      var n := LongConflictLine(info, k);
      FlagLongNameHasNoNewline(info, n);
    } else {
      var ch := ShortConflictLine(info, k);
      FlagShortNameIsNoNewline(info, ch);
    }
  }

  /** Line k, for k below the number of long conflicts, names a long name registered by a flag (and by a parameter). */
  lemma LongConflictLine(info: CmdLnInfo, k: nat) returns (n: string)
    requires k < |info.LongNameConflicts()|
    ensures k < |info.ConflictLines()| && info.ConflictLines()[k] == "--" + n
    ensures n in info.LongNameConflicts() && n in info.LongNames(true) && n != []
  {
    ConflictLinesAt(info);
    n := info.LongNameConflicts()[k];
    assert n in info.LongNameConflicts();
    FlagLongNameNonEmpty(info, n);
  }

  /** A long name registered by a flag is never empty: an empty one counts as no long name. */
  lemma FlagLongNameNonEmpty(info: CmdLnInfo, n: string)
    requires n in info.LongNames(true)
    ensures n != []
  {
    var i :| 0 <= i < |info.cmdLnData| && info.cmdLnData[i].isFlag && info.cmdLnData[i].HasLongName()
             && info.cmdLnData[i].longName == n;
  }

  /** Every later line names a short name registered by a flag (and by a parameter). */
  lemma ShortConflictLine(info: CmdLnInfo, k: nat) returns (ch: char)
    requires |info.LongNameConflicts()| <= k < |info.ConflictLines()|
    ensures info.ConflictLines()[k] == "-" + [ch]
    ensures ch in info.ShortNameConflicts() && ch in info.ShortNames(true)
  {
    ConflictLinesAt(info);
    ch := info.ShortNameConflicts()[k - |info.LongNameConflicts()|];
    assert ch in info.ShortNameConflicts();
  }

  /** A registered flag's long name holds no newline when no registered long name does. */
  lemma FlagLongNameHasNoNewline(info: CmdLnInfo, n: string)
    requires forall i :: 0 <= i < |info.cmdLnData| ==> '\n' !in info.cmdLnData[i].longName
    requires n in info.LongNames(true)
    ensures '\n' !in n
  {
  }

  /** A registered flag's short name is no newline when no registered short name is. */
  lemma FlagShortNameIsNoNewline(info: CmdLnInfo, ch: char)
    requires forall i :: 0 <= i < |info.cmdLnData| ==> info.cmdLnData[i].shortName != '\n'
    requires ch in info.ShortNames(true)
    ensures ch != '\n'
  {
  }

  /** Registering one more descriptor extends a long-name lookup at its end, if at all: lookups keep registration order. */
  lemma FindLongAfterRegistering(info: CmdLnInfo, fp: FPData, name: string)
    ensures CmdLnInfo(info.cmdLnData + [fp], info.cmdLnOther).FindLong(name)
            == info.FindLong(name) + (if fp.HasLongName() && fp.longName == name then [fp] else [])
  {
    FilterAppend(info.cmdLnData, [fp], (d: FPData) => d.HasLongName() && name == d.longName);
  }

  /** Registering one more descriptor extends a short-name lookup at its end, if at all. */
  lemma FindShortAfterRegistering(info: CmdLnInfo, fp: FPData, ch: char)
    ensures CmdLnInfo(info.cmdLnData + [fp], info.cmdLnOther).FindShort(ch)
            == info.FindShort(ch) + (if fp.HasShortName() && fp.shortName == ch then [fp] else [])
  {
    FilterAppend(info.cmdLnData, [fp], (d: FPData) => d.HasShortName() && d.shortName == ch);
  }

  /** streamData(isFlag) keeps registration order: registering extends it at its end, if at all. */
  lemma StreamDataOfKindAfterRegistering(info: CmdLnInfo, fp: FPData, isFlag: bool)
    ensures CmdLnInfo([], info.cmdLnOther).StreamDataOfKind(isFlag) == []
    ensures CmdLnInfo(info.cmdLnData + [fp], info.cmdLnOther).StreamDataOfKind(isFlag)
            == info.StreamDataOfKind(isFlag) + (if fp.isFlag == isFlag then [fp] else [])
  {
    FilterAppend(info.cmdLnData, [fp], (d: FPData) => d.isFlag == isFlag);
  }

  /** streamLongNames() keeps registration order. */
  lemma StreamLongNamesAfterRegistering(info: CmdLnInfo, fp: FPData)
    ensures CmdLnInfo([], info.cmdLnOther).StreamLongNames() == []
    ensures CmdLnInfo(info.cmdLnData + [fp], info.cmdLnOther).StreamLongNames()
            == info.StreamLongNames() + (if fp.HasLongName() then [fp] else [])
  {
    FilterAppend(info.cmdLnData, [fp], (d: FPData) => d.HasLongName());
  }

  /** streamLongNames(isFlag) keeps registration order. */
  lemma StreamLongNamesOfKindAfterRegistering(info: CmdLnInfo, fp: FPData, isFlag: bool)
    ensures CmdLnInfo([], info.cmdLnOther).StreamLongNamesOfKind(isFlag) == []
    ensures CmdLnInfo(info.cmdLnData + [fp], info.cmdLnOther).StreamLongNamesOfKind(isFlag)
            == info.StreamLongNamesOfKind(isFlag) + (if fp.isFlag == isFlag && fp.HasLongName() then [fp] else [])
  {
    StreamDataOfKindAfterRegistering(info, fp, isFlag);
    FilterAppend(info.StreamDataOfKind(isFlag), if fp.isFlag == isFlag then [fp] else [],
                 (d: FPData) => d.HasLongName());
  }

  /** streamShortNames() keeps registration order. */
  lemma StreamShortNamesAfterRegistering(info: CmdLnInfo, fp: FPData)
    ensures CmdLnInfo([], info.cmdLnOther).StreamShortNames() == []
    ensures CmdLnInfo(info.cmdLnData + [fp], info.cmdLnOther).StreamShortNames()
            == info.StreamShortNames() + (if fp.HasShortName() then [fp] else [])
  {
    FilterAppend(info.cmdLnData, [fp], (d: FPData) => d.HasShortName());
  }

  /** streamShortNames(isFlag) keeps registration order. */
  lemma StreamShortNamesOfKindAfterRegistering(info: CmdLnInfo, fp: FPData, isFlag: bool)
    ensures CmdLnInfo([], info.cmdLnOther).StreamShortNamesOfKind(isFlag) == []
    ensures CmdLnInfo(info.cmdLnData + [fp], info.cmdLnOther).StreamShortNamesOfKind(isFlag)
            == info.StreamShortNamesOfKind(isFlag) + (if fp.isFlag == isFlag && fp.HasShortName() then [fp] else [])
  {
    StreamDataOfKindAfterRegistering(info, fp, isFlag);
    FilterAppend(info.StreamDataOfKind(isFlag), if fp.isFlag == isFlag then [fp] else [],
                 (d: FPData) => d.HasShortName());
  }

  /** findLong(name, isFlag) is findLong(name) restricted to one kind, order included. */
  lemma FindLongOfKindRestricts(info: CmdLnInfo, name: string, isFlag: bool)
    ensures info.FindLongOfKind(name, isFlag) == Filter(info.FindLong(name), (fp: FPData) => fp.isFlag == isFlag)
  {
    FilterFilter(info.cmdLnData, (fp: FPData) => fp.HasLongName() && name == fp.longName,
                 (fp: FPData) => fp.isFlag == isFlag,
                 (fp: FPData) => fp.isFlag == isFlag && fp.HasLongName() && name == fp.longName);
  }

  /** findShort(ch, isFlag) is findShort(ch) restricted to one kind, order included. */
  lemma FindShortOfKindRestricts(info: CmdLnInfo, ch: char, isFlag: bool)
    ensures info.FindShortOfKind(ch, isFlag) == Filter(info.FindShort(ch), (fp: FPData) => fp.isFlag == isFlag)
  {
    FilterFilter(info.cmdLnData, (fp: FPData) => fp.HasShortName() && fp.shortName == ch,
                 (fp: FPData) => fp.isFlag == isFlag,
                 (fp: FPData) => fp.isFlag == isFlag && fp.HasShortName() && fp.shortName == ch);
  }

  /** streamData(name, isLong, isFlag) is findLong(name, isFlag) or, for a one-character name, findShort(ch, isFlag). */
  lemma StreamDataNamedIsFind(info: CmdLnInfo, name: string, ch: char, isFlag: bool)
    ensures info.StreamDataNamed(name, true, isFlag) == info.FindLongOfKind(name, isFlag)
    ensures info.StreamDataNamed([ch], false, isFlag) == info.FindShortOfKind(ch, isFlag)
  {
    var kind := (fp: FPData) => fp.isFlag == isFlag;
    var hasLong := (fp: FPData) => fp.HasLongName();
    var hasShort := (fp: FPData) => fp.HasShortName();
    var longNamed := (d: FPData) => name == if true then d.longName else d.ShortNameStr();
    var shortNamed := (d: FPData) => [ch] == if false then d.longName else d.ShortNameStr();
    FilterFilter(Filter(info.cmdLnData, kind), hasLong, longNamed, (fp: FPData) => fp.HasLongName() && name == fp.longName);
    FilterFilter(info.cmdLnData, kind, (fp: FPData) => fp.HasLongName() && name == fp.longName,
                 (fp: FPData) => fp.isFlag == isFlag && fp.HasLongName() && name == fp.longName);
    FilterFilter(Filter(info.cmdLnData, kind), hasShort, shortNamed, (fp: FPData) => fp.HasShortName() && fp.shortName == ch);
    FilterFilter(info.cmdLnData, kind, (fp: FPData) => fp.HasShortName() && fp.shortName == ch,
                 (fp: FPData) => fp.isFlag == isFlag && fp.HasShortName() && fp.shortName == ch);
  }

  /** The flags and the parameters together are every descriptor, each exactly as often as registered. */
  lemma KindsPartitionRegistry(info: CmdLnInfo)
    ensures multiset(info.StreamDataOfKind(true)) + multiset(info.StreamDataOfKind(false)) == multiset(info.cmdLnData)
  {
    FilterPartition(info.cmdLnData, (fp: FPData) => fp.isFlag == true, (fp: FPData) => fp.isFlag == false);
  }

  /** A name reused only among flags, or only among parameters, is not a conflict. */
  lemma SingleKindRegistryValidates(info: CmdLnInfo)
    requires forall i, j :: 0 <= i < |info.cmdLnData| && 0 <= j < |info.cmdLnData|
               ==> info.cmdLnData[i].isFlag == info.cmdLnData[j].isFlag
    ensures info.Validate() == Ok(info)
  {
  }
}
