/**
 * FPData: the descriptor of one flag or one parameter. Its descriptive fields are fixed by the
 * constructor; only the "not set" bit changes, when a value is bound to it.
 */
module Descriptors {
  import opened Wrappers
  import opened Text

  /**
   * The annotated member a descriptor is bound to. Only what the source checks of it is kept:
   * its identity, whether it is static and, for a field, whether it is final.
   */
  datatype Target = Field(id: string, isStatic: bool, isFinal: bool) | Method(id: string, isStatic: bool)

  /** The values read from a CmdFlag annotation. */
  datatype FlagAnnotation = FlagAnnotation(longName: string, shortName: char, required: bool, documentation: string)

  /** The values read from a CmdParam annotation. */
  datatype ParamAnnotation =
    ParamAnnotation(longName: string, shortName: char, required: bool, allowedValues: seq<string>, documentation: string)

  /** Which kind of member a configuration error is about. */
  datatype Kind = FlagKind | ParamKind

  /** The IllegalArgumentExceptions raised while the option registry is assembled and validated. */
  datatype ConfigError =
    | NotStatic(kind: Kind, target: Target)
    | IsFinal(kind: Kind, target: Target)
    | NeedsName(kind: Kind, target: Target)
    | CannotBeBoth(target: Target)
      /** One line per name used both by a flag and by a parameter: `--name` or `-c`. */
    | SwitchAndValue(lines: seq<string>)
  {
    /** The exception message: the lines joined by newlines. */
    function Message(): string {
      if SwitchAndValue? then Join(lines, "\n") else ""
    }
  }

  /** The annotation default for "no short name" (code point 0). */
  const NoShortName: char := '\0'

  /** Boolean.TRUE.toString() and Boolean.FALSE.toString(). */
  const TrueText: string := "true"
  const FalseText: string := "false"

  /** The snapshot of the fields FPData.equals compares. */
  datatype Fields = Fields(
    isFlag: bool, required: bool, shortName: char, longName: string,
    documentation: string, allowedValues: seq<string>, accessibleObject: Target)

  class FPData {
    const isFlag: bool
    const required: bool
    const longName: string
    const shortName: char
    const documentation: string
    const allowedValues: seq<string>
    const accessibleObject: Target
    var notSet: bool

    /** The descriptor of a member annotated with CmdFlag. */
    constructor Flag(flag: FlagAnnotation, ao: Target)
      ensures isFlag && required == flag.required && accessibleObject == ao
      ensures longName == Trim(flag.longName) && shortName == flag.shortName
      ensures documentation == Trim(flag.documentation)
      ensures allowedValues == [TrueText, FalseText]
      ensures HasLongName() <==> Trim(flag.longName) != []
      ensures HasShortName() <==> flag.shortName != NoShortName
      ensures notSet
    {
      isFlag := true;
      required := flag.required;
      longName := Trim(flag.longName);
      shortName := flag.shortName;
      documentation := Trim(flag.documentation);
      allowedValues := [TrueText, FalseText];
      accessibleObject := ao;
      notSet := true;
    }

    /** The descriptor of a member annotated with CmdParam. */
    constructor Param(param: ParamAnnotation, ao: Target)
      ensures !isFlag && required == param.required && accessibleObject == ao
      ensures longName == Trim(param.longName) && shortName == param.shortName
      ensures documentation == Trim(param.documentation)
      ensures allowedValues == param.allowedValues
      ensures HasLongName() <==> Trim(param.longName) != []
      ensures HasShortName() <==> param.shortName != NoShortName
      ensures notSet
    {
      isFlag := false;
      required := param.required;
      longName := Trim(param.longName);
      shortName := param.shortName;
      documentation := Trim(param.documentation);
      allowedValues := param.allowedValues;
      accessibleObject := ao;
      notSet := true;
    }

    /** The source fixes this at construction as "the trimmed long name is not empty". */
    predicate HasLongName() {
      longName != []
    }

    /** The source fixes this at construction as "the short name is not 0". */
    predicate HasShortName() {
      shortName != NoShortName
    }

    /** getShortNameStr: Character.toString(shortName). */
    function ShortNameStr(): string {
      [shortName]
    }

    /** Binds a value: the value is handed back unchanged and the descriptor counts as set from now on. */
    method SetValue(value: string) returns (r: string)
      modifies this
      ensures r == value && !notSet
    {
      notSet := false;
      r := value;
    }

    function Snapshot(): Fields {
      Fields(isFlag, required, shortName, longName, documentation, allowedValues, accessibleObject)
    }

    /** FPData.equals: identity, or the same kind, names, documentation, allowed values and target; `notSet` is ignored. */
    predicate Equals(other: FPData) {
      this == other
      || (isFlag == other.isFlag && required == other.required && shortName == other.shortName
          && longName == other.longName && documentation == other.documentation
          && allowedValues == other.allowedValues && accessibleObject == other.accessibleObject)
    }

    /**
     * The instance `process`: the target is checked first, then the descriptor must have a long or a
     * short name; only then is it appended to the list.
     */
    function Process(data: seq<FPData>, kind: Kind): (r: Result<seq<FPData>, ConfigError>)
      ensures r.Ok? <==> ValidateTarget(accessibleObject, kind).None? && (HasLongName() || HasShortName())
      ensures ValidateTarget(accessibleObject, kind).Some? ==> r == Err(ValidateTarget(accessibleObject, kind).value)
      ensures (ValidateTarget(accessibleObject, kind).None? && !HasLongName() && !HasShortName())
              ==> r == Err(NeedsName(kind, accessibleObject))
      ensures r.Ok? ==> |r.value| == |data| + 1 && r.value[..|data|] == data && r.value[|data|] == this
    {
      match ValidateTarget(accessibleObject, kind)
      case Some(e) => Err(e)
      case None =>
        if !(HasLongName() || HasShortName()) then Err(NeedsName(kind, accessibleObject))
        else Ok(data + [this])
    }

    /**
     * The static `process`: a member carrying both annotations is rejected, one carrying neither is
     * skipped, otherwise a new descriptor of the matching kind is processed.
     */
    static method ProcessMember(data: seq<FPData>, ao: Target, cf: Option<FlagAnnotation>, cp: Option<ParamAnnotation>)
      returns (r: Result<seq<FPData>, ConfigError>)
      ensures cf.Some? && cp.Some? ==> r == Err(CannotBeBoth(ao))
      ensures cf.None? && cp.None? ==> r == Ok(data)
      ensures cf.Some? && cp.None? ==>
        (r.Ok? <==> ValidateTarget(ao, FlagKind).None? && (Trim(cf.value.longName) != [] || cf.value.shortName != NoShortName))
      ensures cp.Some? && cf.None? ==>
        (r.Ok? <==> ValidateTarget(ao, ParamKind).None? && (Trim(cp.value.longName) != [] || cp.value.shortName != NoShortName))
      ensures cf.Some? && cp.None? && r.Err? ==>
        r.error == (if ValidateTarget(ao, FlagKind).Some? then ValidateTarget(ao, FlagKind).value else NeedsName(FlagKind, ao))
      ensures cp.Some? && cf.None? && r.Err? ==>
        r.error == (if ValidateTarget(ao, ParamKind).Some? then ValidateTarget(ao, ParamKind).value else NeedsName(ParamKind, ao))
      ensures r.Ok? && (cf.Some? || cp.Some?) ==>
        |r.value| == |data| + 1 && r.value[..|data|] == data && fresh(r.value[|data|])
        && r.value[|data|].isFlag == cf.Some? && r.value[|data|].accessibleObject == ao && r.value[|data|].notSet
      ensures r.Ok? && cf.Some? ==>
        var fp := r.value[|data|];
        fp.longName == Trim(cf.value.longName) && fp.shortName == cf.value.shortName && fp.required == cf.value.required
        && fp.documentation == Trim(cf.value.documentation) && fp.allowedValues == [TrueText, FalseText]
      ensures r.Ok? && cp.Some? ==>
        var fp := r.value[|data|];
        fp.longName == Trim(cp.value.longName) && fp.shortName == cp.value.shortName && fp.required == cp.value.required
        && fp.documentation == Trim(cp.value.documentation) && fp.allowedValues == cp.value.allowedValues
    {
      if cf.Some? && cp.Some? {
        r := Err(CannotBeBoth(ao));
      } else if cf.Some? {
        var fp := new FPData.Flag(cf.value, ao);
        r := fp.Process(data, FlagKind);
      } else if cp.Some? {
        var fp := new FPData.Param(cp.value, ao);
        r := fp.Process(data, ParamKind);
      } else {
        r := Ok(data);
      }
    }
  }

  /**
   * FPData.validate: a field must be static and not final, a method must be static; the static
   * check comes first.
   */
  function ValidateTarget(ao: Target, kind: Kind): (r: Option<ConfigError>)
    ensures r.None? <==> ao.isStatic && !(ao.Field? && ao.isFinal)
    ensures !ao.isStatic ==> r == Some(NotStatic(kind, ao))
    ensures ao.isStatic && ao.Field? && ao.isFinal ==> r == Some(IsFinal(kind, ao))
  {
    match ao
    case Field(_, isStatic, isFinal) =>
      if !isStatic then Some(NotStatic(kind, ao))
      else if isFinal then Some(IsFinal(kind, ao))
      else None
    case Method(_, isStatic) =>
      if !isStatic then Some(NotStatic(kind, ao)) else None
  }

  /** equals agrees with equality of the compared fields, so it is an equivalence that ignores `notSet`. */
  lemma EqualsIsFieldEquality(a: FPData, b: FPData)
    ensures a.Equals(b) <==> a.Snapshot() == b.Snapshot()
  {
  }
}
