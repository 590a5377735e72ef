# PGJCmdProc command-line scanner, modelled in Dafny

PGJCmdProc binds command-line arguments to annotated static fields and methods. This project models
its three central classes:

- `FPData`, the descriptor of one flag or one parameter (module `Descriptors`, `fpdata.dfy`).
  It is a class whose naming fields are fixed by its two constructors. Only its `notSet` bit
  changes, through `SetValue`. The instance and static `process` check a member and append its
  descriptor to the registration list. `validate` checks the member's static and final modifiers.
  `equals` compares every field except `notSet`.
- `CmdLnInfo`, the registry (module `Registry`, `cmdlninfo.dfy`). It is a record of the
  descriptor list and the list of sinks for the remaining arguments. Its `streamData`,
  `findLong` and `findShort` lookups are order-preserving filters. `validate` rejects a long or
  short name that is used both by a flag and by a parameter, and names every such conflict in
  one message.
- `CmdProc`, the scanner (modules `Switches`, `Scan`, `ScanLemmas` and `Proc`).
  - `Switches` (`switches.dfy`) writes out the two regular expressions `RX_LONG` and `RX_SHORT`
    as parsers over characters.
  - `Scan` (`scan.dfy`) states every handler of the scanner as a function. Each maps the scanner
    state before a token to the state after it, or to the error that ends the process.
  - `ScanLemmas` (`scan_lemmas.dfy`) proves what the scan does with each kind of token.
  - `Proc` (`cmdproc.dfy`) is the class `CmdProc` itself. Its fields are updated in place by
    methods that mirror the Java methods one for one, including the loop over the arguments and
    the loop over the code points of a short cluster. Each method is proved to produce exactly
    the state or error that the matching `Scan` function gives. Each also clears exactly the
    `notSet` bits of the descriptors it binds.

Every call of `setValue` is recorded in a binding log (`bindings`), so the order of bindings can be
stated. Every user error prints a message to standard error, shows help and calls `System.exit(1)`;
the help switch only shows help (`displayHelp` is empty) and calls `System.exit(1)`. Here that is an `Err` value (`ErrorKind`), after which nothing else happens.

`Text` (`text.dfy`) defines the java.lang.String operations used: `strip`, `trim`, `startsWith` and
joining lines with a separator. It also defines `Split`, which the source does not use: it cuts a
validation message back into its lines, so that `ValidateMessageLines` can state what the joined
message holds. `Seqs` (`seqs.dfy`) defines the stream `filter`/`map` stages and the intersection.
`Wrappers` (`wrappers.dfy`) holds `Option` and `Result`.

What the scanner does with a few kinds of token, as the code has it:

- A token starting with `\-` loses its backslash and is then matched again (`CmdProc.java` line
  174). So `\-x` is the short cluster `x`, and only `\-` and `\--` become the residuals `-` and
  `--` (`EscapedClusterToken`, `EscapedDashes`).
- A parameter letter in the middle of a cluster takes the next argument slot, and the letters
  after it are still handled from the same cluster (`ClusterBindings`, `MidClusterParameter`).
- `--name` without a value goes to the first descriptor with that long name, of either kind
  (`findLong(name)` then `findAny`, `LongSwitchToken`).
- `--`, `-` and the help switches are compared with the stripped token, not the token as typed.
  A residual token keeps its surrounding whitespace but loses a leading `\-` escape.
- Both switch grammars allow `\s` around the token, and RX_LONG also allows it before `=`. The
  name, value and cluster they capture are the token's own text (`ParseLongSound`,
  `ParseShortSound`).

## Model

| member | source | states |
|---|---|---|
| Text.Strip | src/main/java/com/projectgalen/lib/cmdproc/CmdProc.java:63 | `strip` removes a leading and a trailing run of Character.isWhitespace characters: the result neither starts nor ends with one and sits inside the input between such runs |
| Text.Trim | src/main/java/com/projectgalen/lib/cmdproc/FPData.java:51-53 | `trim` removes leading and trailing characters up to U+0020, in the same sense |
| Text.SplitJoin | src/main/java/com/projectgalen/lib/cmdproc/CmdLnInfo.java:94 | lines joined with a newline split back at newlines into exactly those lines, when none of them holds a newline |
| Seqs.Intersection | src/main/java/com/projectgalen/lib/cmdproc/CmdLnInfo.java:85 | the intersection holds only elements of both inputs and every element of the first that is in the second |
| Seqs.FilterPartition | src/main/java/com/projectgalen/lib/cmdproc/CmdLnInfo.java:64-66 | filtering by a predicate and by its negation splits a sequence as a multiset, losing and duplicating nothing |
| Switches.ParseLong | src/main/java/com/projectgalen/lib/cmdproc/CmdProc.java:32 | an RX_LONG match yields a name of `[^\s=-][^\s=]*` and, when `=` is present, a value of `.+` |
| Switches.ParseLongSound | src/main/java/com/projectgalen/lib/cmdproc/CmdProc.java:32 | every RX_LONG match reads its name and value from the token: the token is `\s*`, `--`, the name, then `\s*=` and the value when there is one, then `\s*` |
| Switches.ParseShort | src/main/java/com/projectgalen/lib/cmdproc/CmdProc.java:33 | an RX_SHORT match yields a cluster `[^\s-]\S*` |
| Switches.ParseShortSound | src/main/java/com/projectgalen/lib/cmdproc/CmdProc.java:33 | every RX_SHORT match reads its cluster from the token: the token is `\s*`, `-`, the cluster, then `\s*` |
| Switches.ParseLongOfName | src/main/java/com/projectgalen/lib/cmdproc/CmdProc.java:32 | `--name` with any `\s` before and after it matches RX_LONG with exactly that name and no value |
| Switches.ParseLongOfAssignment | src/main/java/com/projectgalen/lib/cmdproc/CmdProc.java:32 | `--name=value` with any `\s` before it, before `=` and after it matches RX_LONG with exactly that name and that value, for every value `.+` accepts, when the trailing `\s` is empty or starts with a line terminator (greedy `.+` would take a trailing blank) |
| Switches.ParseShortOfCluster | src/main/java/com/projectgalen/lib/cmdproc/CmdProc.java:33 | `-cluster` with any `\s` before and after it matches RX_SHORT with exactly that cluster |
| Switches.LongIsNotShort | src/main/java/com/projectgalen/lib/cmdproc/CmdProc.java:32-33 | no token matches both grammars |
| Switches.EscapedIsNoSwitch | src/main/java/com/projectgalen/lib/cmdproc/CmdProc.java:32-33 | a token starting with a backslash matches neither grammar |
| Switches.DashesMatchNeither | src/main/java/com/projectgalen/lib/cmdproc/CmdProc.java:32-33 | `-` and `--` match neither grammar |
| Descriptors.FPData.Flag | src/main/java/com/projectgalen/lib/cmdproc/FPData.java:48-58 | a flag descriptor stores the trimmed long name and documentation, the short name as given and allowed values `["true","false"]`; it has a long name iff the trimmed name is non-empty, a short name iff it is not 0, and starts not set |
| Descriptors.FPData.Param | src/main/java/com/projectgalen/lib/cmdproc/FPData.java:60-70 | the same for a parameter, which keeps the allowed values it is given |
| Descriptors.FPData.SetValue | src/main/java/com/projectgalen/lib/cmdproc/FPData.java:114-118 | `setValue` hands the value back unchanged and leaves the descriptor set |
| Descriptors.FPData.Process | src/main/java/com/projectgalen/lib/cmdproc/FPData.java:120-124 | the target is checked first, then a descriptor without long and short name is rejected; otherwise exactly this descriptor is appended at the end |
| Descriptors.FPData.ProcessMember | src/main/java/com/projectgalen/lib/cmdproc/FPData.java:120-133 | a member with both annotations is rejected, one with neither leaves the list as it is; otherwise a new descriptor of the matching kind, with the annotation's trimmed names and documentation, short name, `required` and allowed values and with `notSet` on, is appended at the end, or the error is the target check's, else the missing-name error |
| Descriptors.ValidateTarget | src/main/java/com/projectgalen/lib/cmdproc/FPData.java:135-143 | a field must be static and not final and a method static, static being checked first, with the matching error |
| Descriptors.EqualsIsFieldEquality | src/main/java/com/projectgalen/lib/cmdproc/FPData.java:72-82 | `equals` holds iff kind, required, both names, documentation, allowed values and target agree; `notSet` plays no part |
| Registry.CmdLnInfo.StreamDataOfKind | src/main/java/com/projectgalen/lib/cmdproc/CmdLnInfo.java:64-66 | `streamData(isFlag)` holds exactly the registered descriptors of that kind |
| Registry.CmdLnInfo.StreamLongNames | src/main/java/com/projectgalen/lib/cmdproc/CmdLnInfo.java:68-70 | exactly the registered descriptors that have a long name |
| Registry.CmdLnInfo.StreamLongNamesOfKind | src/main/java/com/projectgalen/lib/cmdproc/CmdLnInfo.java:72-74 | exactly the descriptors of one kind that have a long name |
| Registry.CmdLnInfo.StreamShortNames | src/main/java/com/projectgalen/lib/cmdproc/CmdLnInfo.java:76-78 | exactly the registered descriptors that have a short name |
| Registry.CmdLnInfo.StreamShortNamesOfKind | src/main/java/com/projectgalen/lib/cmdproc/CmdLnInfo.java:80-82 | exactly the descriptors of one kind that have a short name |
| Registry.CmdLnInfo.FindLong | src/main/java/com/projectgalen/lib/cmdproc/CmdLnInfo.java:52-54 | `findLong(name)` holds exactly the descriptors whose long name is `name`, and nothing for the empty name |
| Registry.CmdLnInfo.FindLongOfKind | src/main/java/com/projectgalen/lib/cmdproc/CmdLnInfo.java:48-50 | `findLong(name, isFlag)` holds only descriptors of that kind with that long name |
| Registry.CmdLnInfo.FindShort | src/main/java/com/projectgalen/lib/cmdproc/CmdLnInfo.java:56-58 | `findShort(ch)` holds exactly the descriptors whose short name is `ch`, and nothing for `ch = 0` |
| Registry.CmdLnInfo.FindShortOfKind | src/main/java/com/projectgalen/lib/cmdproc/CmdLnInfo.java:60-62 | `findShort(ch, isFlag)` holds only descriptors of that kind with that short name |
| Registry.CmdLnInfo.LongNameConflicts | src/main/java/com/projectgalen/lib/cmdproc/CmdLnInfo.java:84-86 | a long name is a conflict iff a flag and a parameter both have it |
| Registry.CmdLnInfo.ShortNameConflicts | src/main/java/com/projectgalen/lib/cmdproc/CmdLnInfo.java:88-90 | a short name is a conflict iff a flag and a parameter both have it |
| Registry.CmdLnInfo.LongNamesOfStream | src/main/java/com/projectgalen/lib/cmdproc/CmdLnInfo.java:85 | the long names mapped from `streamLongNames(isFlag)` are exactly the long names of that kind |
| Registry.CmdLnInfo.ShortNamesOfStream | src/main/java/com/projectgalen/lib/cmdproc/CmdLnInfo.java:89 | the short names mapped from `streamShortNames(isFlag)` are exactly the short names of that kind |
| Registry.StreamDataOfKindAfterRegistering | src/main/java/com/projectgalen/lib/cmdproc/CmdLnInfo.java:64-66 | `streamData(isFlag)` keeps registration order: empty for an empty registry, and registering one descriptor appends it at the end exactly when it is of that kind |
| Registry.StreamLongNamesAfterRegistering | src/main/java/com/projectgalen/lib/cmdproc/CmdLnInfo.java:68-70 | `streamLongNames()` keeps registration order: registering appends the descriptor at the end exactly when it has a long name |
| Registry.StreamLongNamesOfKindAfterRegistering | src/main/java/com/projectgalen/lib/cmdproc/CmdLnInfo.java:72-74 | `streamLongNames(isFlag)` keeps registration order: registering appends the descriptor at the end exactly when it is of that kind and has a long name |
| Registry.StreamShortNamesAfterRegistering | src/main/java/com/projectgalen/lib/cmdproc/CmdLnInfo.java:76-78 | `streamShortNames()` keeps registration order: registering appends the descriptor at the end exactly when it has a short name |
| Registry.StreamShortNamesOfKindAfterRegistering | src/main/java/com/projectgalen/lib/cmdproc/CmdLnInfo.java:80-82 | `streamShortNames(isFlag)` keeps registration order: registering appends the descriptor at the end exactly when it is of that kind and has a short name |
| Registry.CmdLnInfo.Validate | src/main/java/com/projectgalen/lib/cmdproc/CmdLnInfo.java:92-97 | validation fails iff some long or short name is both a flag's and a parameter's, and otherwise returns the same registry |
| Registry.CmdLnInfo.ConflictLinesNonEmpty | src/main/java/com/projectgalen/lib/cmdproc/CmdLnInfo.java:94-95 | the joined message is non-empty exactly when there is a conflict |
| Registry.ValidateReportsEveryConflict | src/main/java/com/projectgalen/lib/cmdproc/CmdLnInfo.java:92-97 | a failure carries the conflict lines; `--n` is a line iff `n` is a conflicting long name, `-c` iff `c` is a conflicting short name; every line is one of the two shapes and long lines come first |
| Registry.ConflictLinesAt | src/main/java/com/projectgalen/lib/cmdproc/CmdLnInfo.java:94 | line k of the message is `--` and the k-th long conflict, then `-` and each short conflict in turn |
| Registry.ConflictLinesShape | src/main/java/com/projectgalen/lib/cmdproc/CmdLnInfo.java:94 | every line is `--name` or `-c`, and no long line follows a short one |
| Registry.ConflictLinesNameLongs | src/main/java/com/projectgalen/lib/cmdproc/CmdLnInfo.java:84-86 | `--n` is a line iff `n` belongs to a flag and to a parameter |
| Registry.ConflictLinesNameShorts | src/main/java/com/projectgalen/lib/cmdproc/CmdLnInfo.java:88-90 | `-c` is a line iff `c` belongs to a flag and to a parameter |
| Registry.ValidateMessageLines | src/main/java/com/projectgalen/lib/cmdproc/CmdLnInfo.java:94-95 | when no name holds a newline, the exception message read line by line is exactly one line per conflict |
| Registry.FindLongAfterRegistering | src/main/java/com/projectgalen/lib/cmdproc/CmdLnInfo.java:52-54 | registering one more descriptor can only extend a long-name lookup at its end: lookups keep registration order |
| Registry.FindShortAfterRegistering | src/main/java/com/projectgalen/lib/cmdproc/CmdLnInfo.java:56-58 | the same for short-name lookups |
| Registry.FindLongOfKindRestricts | src/main/java/com/projectgalen/lib/cmdproc/CmdLnInfo.java:48-54 | `findLong(name, isFlag)` is `findLong(name)` restricted to one kind, order included |
| Registry.FindShortOfKindRestricts | src/main/java/com/projectgalen/lib/cmdproc/CmdLnInfo.java:56-62 | `findShort(ch, isFlag)` is `findShort(ch)` restricted to one kind, order included |
| Registry.StreamDataNamedIsFind | src/main/java/com/projectgalen/lib/cmdproc/CmdLnInfo.java:44-46 | `streamData(name, isLong, isFlag)` equals `findLong(name, isFlag)`, or `findShort(ch, isFlag)` for a one-character name |
| Registry.KindsPartitionRegistry | src/main/java/com/projectgalen/lib/cmdproc/CmdLnInfo.java:64-66 | the flags and the parameters together are every descriptor, each as often as registered |
| Registry.SingleKindRegistryValidates | src/main/java/com/projectgalen/lib/cmdproc/CmdLnInfo.java:84-96 | a registry of one kind only validates, whatever names it reuses |
| Scan.Unescape | src/main/java/com/projectgalen/lib/cmdproc/CmdProc.java:174 | the token changes iff it starts with `\-`, and then only its backslash is removed |
| Scan.Handler | src/main/java/com/projectgalen/lib/cmdproc/CmdProc.java:163-176 | a token stripping to `--` sets the latch and nothing else; every other handled token advances the state |
| Scan.HandleRedirectionSwitch | src/main/java/com/projectgalen/lib/cmdproc/CmdProc.java:106-109 | succeeds iff redirection is allowed, then sets only `redirectStdIn`; otherwise the cannot-redirect error |
| Scan.HandleLong | src/main/java/com/projectgalen/lib/cmdproc/CmdProc.java:82-90 | whatever a switch token leads to keeps the scan invariant: slots are only taken forward, `others` and the bindings only grow at their ends, and every new binding is to a registered descriptor, a flag's to "true" or "false" |
| Scan.HandleLongFP | src/main/java/com/projectgalen/lib/cmdproc/CmdProc.java:98-100 | unknown long iff no descriptor has that long name |
| Scan.HandleLongArg | src/main/java/com/projectgalen/lib/cmdproc/CmdProc.java:92-96 | a flag gets "true"; a parameter takes the next slot verbatim; missing argument iff a parameter finds no slot |
| Scan.HandleLongFPValue | src/main/java/com/projectgalen/lib/cmdproc/CmdProc.java:102-104 | `--name=value` binds the value to the first parameter of that name; unknown long iff there is none |
| Scan.HandleShort | src/main/java/com/projectgalen/lib/cmdproc/CmdProc.java:111-127 | a token that is no cluster is appended to `others` and nothing else changes |
| Scan.Decompose | src/main/java/com/projectgalen/lib/cmdproc/CmdProc.java:113-122 | a cluster yields at most one item per character, and none only for the empty cluster |
| Scan.ApplyItems | src/main/java/com/projectgalen/lib/cmdproc/CmdProc.java:116-122 | handling the items of a cluster in order keeps the same scan invariant |
| Scan.HandleShortFP | src/main/java/com/projectgalen/lib/cmdproc/CmdProc.java:146-148 | unknown short iff no descriptor has that short name |
| Scan.HandleShortArg | src/main/java/com/projectgalen/lib/cmdproc/CmdProc.java:129-136 | a flag gets "false" when negated and "true" otherwise; a parameter binds the value getArgument reads from the next slot; missing argument otherwise |
| Scan.GetArgument | src/main/java/com/projectgalen/lib/cmdproc/CmdProc.java:138-144 | missing argument iff the slot matches either grammar; otherwise the slot with a leading `\-` unescaped |
| Scan.Step | src/main/java/com/projectgalen/lib/cmdproc/CmdProc.java:60-63 | one pass of the loop reads at least one slot and keeps the scan invariant |
| Scan.ScanFrom | src/main/java/com/projectgalen/lib/cmdproc/CmdProc.java:60-64 | a scan that succeeds has read every slot, left to right, and its state only grew |
| Scan.Scan | src/main/java/com/projectgalen/lib/cmdproc/CmdProc.java:59-67 | a successful scan redirects standard input only when allowed and binds only registered descriptors, flags only to "true" or "false" |
| ScanLemmas.ScanStep | src/main/java/com/projectgalen/lib/cmdproc/CmdProc.java:61-63 | before `--`, the scan is the handler on the next slot followed by the scan from the state it leaves |
| ScanLemmas.ScanStepErr | src/main/java/com/projectgalen/lib/cmdproc/CmdProc.java:157-161 | a token the handler rejects ends the scan with that error |
| ScanLemmas.SkipStep | src/main/java/com/projectgalen/lib/cmdproc/CmdProc.java:62 | after `--` a token is appended to `others` as it is |
| ScanLemmas.EndOfSwitchesTakesRest | src/main/java/com/projectgalen/lib/cmdproc/CmdProc.java:62 | after `--` every remaining token is appended to `others` verbatim, in order, and nothing else changes |
| ScanLemmas.DoubleDashEndsSwitches | src/main/java/com/projectgalen/lib/cmdproc/CmdProc.java:164-165 | a token stripping to `--` is not stored, and every later token ends up in `others` verbatim |
| ScanLemmas.RedirectToken | src/main/java/com/projectgalen/lib/cmdproc/CmdProc.java:167-168 | a token stripping to `-` sets `redirectStdIn` when allowed, is the cannot-redirect error otherwise, and never reaches `others` |
| ScanLemmas.HelpToken | src/main/java/com/projectgalen/lib/cmdproc/CmdProc.java:170-171 | a help token ends the scan, whatever tokens follow it |
| ScanLemmas.ErrorIsTerminal | src/main/java/com/projectgalen/lib/cmdproc/CmdProc.java:157-161 | a failed token is the result of the whole scan: no later token is looked at |
| ScanLemmas.ResidualToken | src/main/java/com/projectgalen/lib/cmdproc/CmdProc.java:124-126 | a token matching neither grammar goes to `others`, unchanged but for a `\-` escape |
| ScanLemmas.EscapedDashes | src/main/java/com/projectgalen/lib/cmdproc/CmdProc.java:174 | `\-` and `\--` reach `others` as `-` and `--` |
| ScanLemmas.EscapedClusterToken | src/main/java/com/projectgalen/lib/cmdproc/CmdProc.java:174 | `\-x…` is handled as the short cluster `x…` |
| ScanLemmas.LongSwitchToken | src/main/java/com/projectgalen/lib/cmdproc/CmdProc.java:85 | `--name`: the first descriptor of that name, of either kind; a flag gets "true", a parameter takes the next slot verbatim; unknown long or missing argument otherwise |
| ScanLemmas.LongAssignmentToken | src/main/java/com/projectgalen/lib/cmdproc/CmdProc.java:84 | `--name=value` binds the value unchanged to the first parameter of that name, never to a flag; unknown long otherwise |
| ScanLemmas.ShortClusterParses | src/main/java/com/projectgalen/lib/cmdproc/CmdProc.java:88 | `-cluster` fails RX_LONG and matches RX_SHORT with that cluster |
| ScanLemmas.ClusterToken | src/main/java/com/projectgalen/lib/cmdproc/CmdProc.java:111-122 | `-cluster` is handled item by item, in cluster order |
| ScanLemmas.ComposeDecompose | src/main/java/com/projectgalen/lib/cmdproc/CmdProc.java:116-121 | reading a cluster as items loses nothing: writing them back gives the cluster |
| ScanLemmas.DecomposeCompose | src/main/java/com/projectgalen/lib/cmdproc/CmdProc.java:116-121 | every unambiguous item sequence is read back exactly from its text |
| ScanLemmas.DecomposeStep | src/main/java/com/projectgalen/lib/cmdproc/CmdProc.java:117-120 | one turn of the loop takes the character at `i`, negated iff a `-` follows it, and moves past both |
| ScanLemmas.ClusterBindings | src/main/java/com/projectgalen/lib/cmdproc/CmdProc.java:116-122 | a cluster handled without error binds one value per item in item order, flags by negation, each parameter the next free slot, also mid-cluster, and changes nothing else |
| ScanLemmas.FlagClusterSucceeds | src/main/java/com/projectgalen/lib/cmdproc/CmdProc.java:130 | a cluster of registered flags always succeeds |
| ScanLemmas.ClusterStopsAtUnknown | src/main/java/com/projectgalen/lib/cmdproc/CmdProc.java:147 | the first unregistered character of a cluster ends the scan with unknown short |
| ScanLemmas.MidClusterParameter | src/main/java/com/projectgalen/lib/cmdproc/CmdProc.java:116-122 | `-nab out`, `n` a parameter and `a`, `b` flags: binds `n` to "out", then `a` and `b` to "true", leaving `others` empty |
| Proc.Deliveries | src/main/java/com/projectgalen/lib/cmdproc/CmdProc.java:65 | every sink, in order, receives the same `others` list |
| Proc.CmdProc.constructor | src/main/java/com/projectgalen/lib/cmdproc/CmdProc.java:46-50 | a new scanner is at slot 0 with the latch and redirection off and nothing collected |
| Proc.CmdProc.ProcessCommandLine | src/main/java/com/projectgalen/lib/cmdproc/CmdProc.java:59-67 | the loop ends in the state or error the scan function gives; on success it hands the final `others` to every sink and returns `redirectStdIn`, on an error no sink receives anything; it clears exactly the `notSet` bits of the descriptors it bound |
| Proc.CmdProc.NextArgument | src/main/java/com/projectgalen/lib/cmdproc/CmdProc.java:61-63 | one pass of the loop does what `Scan.Step` says |
| Proc.CmdProc.DeliverOthers | src/main/java/com/projectgalen/lib/cmdproc/CmdProc.java:65 | appends one delivery per sink, in sink order |
| Proc.CmdProc.Handler | src/main/java/com/projectgalen/lib/cmdproc/CmdProc.java:163-176 | does what `Scan.Handler` says |
| Proc.CmdProc.HandleRedirectionSwitch | src/main/java/com/projectgalen/lib/cmdproc/CmdProc.java:106-109 | does what `Scan.HandleRedirectionSwitch` says |
| Proc.CmdProc.HandleFlagsAndParams | src/main/java/com/projectgalen/lib/cmdproc/CmdProc.java:69-71 | does what `Scan.HandleLong` says |
| Proc.CmdProc.HandleLong | src/main/java/com/projectgalen/lib/cmdproc/CmdProc.java:82-90 | does what `Scan.HandleLong` says |
| Proc.CmdProc.HandleLongFP | src/main/java/com/projectgalen/lib/cmdproc/CmdProc.java:98-100 | does what `Scan.HandleLongFP` says |
| Proc.CmdProc.HandleLongFPValue | src/main/java/com/projectgalen/lib/cmdproc/CmdProc.java:102-104 | does what `Scan.HandleLongFPValue` says |
| Proc.CmdProc.HandleLongArg | src/main/java/com/projectgalen/lib/cmdproc/CmdProc.java:92-96 | does what `Scan.HandleLongArg` says |
| Proc.CmdProc.HandleShort | src/main/java/com/projectgalen/lib/cmdproc/CmdProc.java:111-127 | the code-point loop does what `Scan.HandleShort` says |
| Proc.CmdProc.HandleShortFP | src/main/java/com/projectgalen/lib/cmdproc/CmdProc.java:146-148 | does what `Scan.HandleShortFP` says |
| Proc.CmdProc.HandleShortArg | src/main/java/com/projectgalen/lib/cmdproc/CmdProc.java:129-136 | does what `Scan.HandleShortArg` says |
| Proc.CmdProc.GetArgument | src/main/java/com/projectgalen/lib/cmdproc/CmdProc.java:138-144 | does what `Scan.GetArgument` says, taking the slot only on success |
| Proc.CmdProc.SetValue | src/main/java/com/projectgalen/lib/cmdproc/FPData.java:114-118 | logs the binding and clears the `notSet` bit of that descriptor only |
| Proc.CmdProc.Run | src/main/java/com/projectgalen/lib/cmdproc/CmdProc.java:178-180 | the registry is validated first (a conflict is thrown), then a new scanner returns what `Scan.Scan` gives or exits with its error |

## Left out

- Reflection: `findAnnotatedMembers` walks classes and superclasses for annotated members. The
  model takes the descriptor list and the sink list as given. The static and final modifiers of a
  target are booleans.
- OData: generic-type introspection and `setValues`, whose body is empty. A sink receiving the
  `others` list is recorded as a `Delivery`.
- The demo program and the annotation declarations. They hold no scanning logic.
- Output and exit: `displayHelp` is empty, and the message printed to standard error and
  `System.exit(1)` are not modelled. They become the `Err` outcome with an `ErrorKind`, and
  `Exited` in `Run`.
- Message texts: the resource-bundle templates are left out. Errors are kinds, and a conflict
  line is `--name` or `-c` without the template around it. The help switch names come from the
  bundle and are parameters here.
- `hashCode` is not modelled. So are the value coercion and the `required`/`allowedValues`
  checks, which `setValue` does not perform yet.
- Short names are Dafny `char`s. A Java `int` short name that is not a Unicode scalar value
  (negative, a surrogate, or above U+10FFFF) is outside the model. The code-point array of a
  cluster is a sequence of characters.
- Descriptors.FPData.Process: the caller's list is passed and returned by value, not appended in
  place.
- Proc.CmdProc.HandleShort: `handleUserError` never returns, because it calls `System.exit(1)`
  (through `handleHelpSwitch`). So the loop over a cluster stops at the first failing item, and
  the model returns that item's error at once. `ProcessCommandLine` likewise leaves its loop at
  the first error.
- The one-line accessors `isParam`, `isLongName`, `isShortName` and `notSet` of FPData are read as
  the fields themselves, and `streamData()` of CmdLnInfo as the list `cmdLnData`.
- `findAny` on a sequential stream is taken to return the first match.
- Seqs.Intersection: `Streams.intersection` comes from an unseen library. It is modelled as the elements of
  the first stream that occur in the second, and only set-level facts are stated about it. Nothing is claimed about duplicate
  conflict lines.
- Registry.ValidateMessageLines: this holds only for names without newlines. A name containing
  a newline splits its message line.
