# A verified model of WvStreams' argument parser, help tables, SSL write path, D-Bus connection, counter mode and ini store

WvStreams is a C++ library with a copy of GNU argp in C. This project models five parts of it in Dafny and
proves what they are for: that argument parsing delivers the right calls in the right order and leaves `argv`
permuted the way it should be; that the compressed help tables mean what the parser does; that the SSL write path
neither loses nor repeats bytes; that a D-Bus client and server complete their handshake in every interleaving and
every reply callback is called exactly once; and that encrypting and saving can be undone.

`dafny verify dfyconfig.toml` checks everything.

## How the model is built

`ArgpParser.Step` is one call of `parser_parse_next`, and `ArgpScan.Scan` the reference that whole parses are measured
by: a single pass over the arguments that never moves anything and yields options with their values, other arguments,
what follows a "--", and the option calls to make.

Code that changes things in place is modelled by classes and array methods with loops; each of them is proved equal
to a function on values, and the theorems are about those functions, over all inputs and all runs.

| files | source | form |
|---|---|---|
| `ArgpExchange`, `ArgpLookup`, `ArgpParser`, `ArgpObject` | `argp/argp-parse.c` | `exchange` on an array; the class `Parser` with the scanning variables; the step function of the state machine |
| `ArgpItems` | the same | the text of a command line: what is written from options and words is read as these |
| `ArgpScan`, `ArgpRuns`, `ArgpInOrder`, `ArgpModes`, `ArgpLifecycle`, `ArgpCalls`, `ArgpAccounting`, `ArgpCallOrder`, `ArgpErrorFlag`, `ArgpResults` | the same | theorems over whole parses |
| `ArgpGroups`, `ArgpSubtree` | `convert_options`, `calc_sizes`, input passing | the class `ConvertState`, slots in an array; the tree by paths |
| `ArgpHelpTable`, `ArgpHelpDispatch`, `ArgpUsage`, `ArgpClusters` | `argp/argp-help.c` | the class `Hol`, levels in an array, cluster objects |
| `SslWrite` | `crypto/wvsslstream.cc` | the class `WvSSLStream` |
| `DBusWords`, `DBusAuth`, `DBusAlone`, `DBusObject`, `DBusPending` | `dbus/wvdbusconn.cc`, `dbus/wvdbusserver.cc` | a transition system of two connections and a channel, and of either side against any peer; classes for the connection and both authenticators; pending replies as a map field |
| `CounterMode` | `crypto/wvcountermode.cc` | the class `WvCounterModeEncoder`, the counter in an array |
| `ConfText`, `ConfStore`, `ConfMeaning`, `ConfInherit`, `ConfObject` | `configfile/wvconf.cc`, `configfile/cfgsection.cc` | the classes `WvConfigSection` and `WvConf` |
| `Maybes`, `Sequences`, `WvStrings`, `ArgpTypes` | `utils/wvstrutils.cc`, `argp/argp.h` | shared values |

Unknowns are parameters. The users' parsing functions in argp are one function of the whole call history that answers
0, EBADKEY or another error; they do not move `next` or edit `argv`. `SSL_write` is a function of all earlier
attempts and the new data. The channel between the two D-Bus sides carries any number of bytes at any time, and a
write to the stream takes any part of the message queue. How a `WvBuf` is cut into pieces, and in which order a
dictionary is walked, is nondeterministic. Callbacks do not call back into the connection.

Integers are unbounded where the source does not depend on their width; the counter bytes of counter mode are 8-bit
and wrap, and `msecdiff` clamps to an `int`. Character classes are those of the C locale.

## What turned out false, and exactly when

* **A refused short option can pass for success.** The short option branch (`argp/argp-parse.c:1011-1012`) leaves
  `*arg_ebadkey` as it was. In RETURN_IN_ORDER, after an argument and with no long option since, an EBADKEY from the
  option's own parser is then taken for "argument not wanted". `ArgpErrorFlag.RefusedParse` proves when such a parse
  returns 0: exactly then, if the caller takes the arguments left over or none are left and no later call fails.
  `RefusalSwallowed` gives the input `p f -x`, on which any caller is told success.
* **`hol_cluster_cmp` moves the wrong cluster.** Its first loops (`argp/argp-help.c:690-693`) replace the *less* deep
  cluster by its parent, against the comment before them, so clusters of different depth end in a null parent.
  `ArgpClusters.ClusterCmp` proves that a comparison comes out if and only if the depths are equal. Among siblings of
  one group the *higher* index comes first.
* **Help and parser can disagree about a key** exactly when an `OPTION_DOC` entry is the first with that key
  (`ArgpHelpDispatch.HelpAgreesWithDispatch`): the parser does not look at that flag.
* **A single `uwrite` call does not always conserve the stream.** It does exactly when SSL still refuses the held
  data, or the buffer repeats what was already fixed, as far as both go (`SslWrite.CallConservesIff`); this answers the
  question in the comment at `crypto/wvsslstream.cc:532-535`. `ChangedBuffer` is a caller who offers `[1, 2]`, is told
  0, offers `[3]` instead and is told that this was written. Callers who present the stream from where they are always
  meet the condition (`StreamConservation`).
* **The D-Bus alarm can be set up to a millisecond after the deadline.** `msecdiff` subtracts seconds and microseconds
  apart from each other and chops only the latter, where its header promises to chop the difference;
  `DBusPending.AlarmOnTime` says exactly when the alarm is late.
* **Not every store survives saving and loading.** `ConfStore.RoundTrip` proves that a store is restored if and only
  if it is `Storable`; what was ever loaded from a file is. `ConfInherit.SetSurvivesIff` says exactly which calls of
  `set` keep it so, and `BlankIsLost` is one that does not: the value ` x`, with a blank in front.

## Model

| member | source | states |
|---|---|---|
| ArgpExchange.RotatedAt | argp/argp-parse.c:813-868 | the specification of exchange, element by element: the two adjacent blocks change places and everything else stays |
| ArgpExchange.Rotate | argp/argp-parse.c:813-868 | the loop that swaps the shorter block into place until one is empty ends and leaves the array rotated |
| ArgpExchange.SwapBlocks | argp/argp-parse.c:836-842 | the inner loop swaps two blocks of equal length in place and touches nothing else |
| ArgpExchange.PlaceBottom | argp/argp-parse.c:830-845 | with a short bottom block, one round leaves a smaller rotation to do that completes the whole one |
| ArgpExchange.PlaceTop | argp/argp-parse.c:846-861 | the same with a short top block |
| ArgpExchange.RotatedPermutes | argp/argp-parse.c:813-868 | exchange only permutes argv |
| ArgpLookup.FindShortOption | argp/argp-parse.c:319-339 | the nested loops return the first option in group order whose key it is, and its group |
| ArgpLookup.MatchOption | argp/argp-parse.c:350-373 | exact iff the name is the argument up to '=', partial iff it properly extends that |
| ArgpLookup.FindLongOption | argp/argp-parse.c:375-422 | the search returns the first exact match, otherwise the only partial match, otherwise nothing |
| ArgpLookup.LongScanIsMatch | argp/argp-parse.c:386-421 | the single pass that remembers partial matches equals that definition |
| ArgpItems.NameMeans | argp/argp-parse.c:350-422 | a name means the first option of that name, else the only one that begins with it; what follows an '=' does not matter |
| ArgpItems.NameMeansNothing | argp/argp-parse.c:375-422 | an unknown or ambiguous name means nothing |
| ArgpItems.LetterMeans | argp/argp-parse.c:319-339 | a letter means the first option with that key |
| ArgpItems.SlotAt | argp/argp-parse.c:319-339 | the options are searched group by group, each with its own group |
| ArgpItems.ElementIs | argp/argp-parse.c:876-929 | which elements of argv are arguments, "--", long options or clusters, and the text after the dashes |
| ArgpItems.DecodeWith | argp/argp-parse.c:1100-1170 | --name=value hands over exactly what follows the first '=', or is refused by an option without argument |
| ArgpItems.DecodeBare | argp/argp-parse.c:1100-1170 | --name hands over no value, or the next element if one is needed, and is refused without one |
| ArgpItems.DecodeLetter | argp/argp-parse.c:954-1013 | a letter of a cluster: no value, the rest of the cluster, or the next element, with every way to be refused |
| ArgpItems.ReadItems | argp/argp-parse.c:936-1201 | whatever options and words a command line is written from, in any of the ways there are to write them, they are what is read |
| ArgpItems.ScanItems | argp/argp-parse.c:936-1201 | the reference pass takes the same options with the same values, and the elements they were written as |
| ArgpItems.CommandLineInOrder | argp/argp-parse.c:936-1201 | a RETURN_IN_ORDER run over such a command line makes the calls that were meant, in their order |
| ArgpItems.CommandLinePermuted | argp/argp-parse.c:936-1201 | a PERMUTE run calls the options that were meant, and leaves argv as the options, the words, and what follows the "--" |
| ArgpItems.CommandLineRequired | argp/argp-parse.c:936-1201 | a REQUIRE_ORDER run stops at the first word and leaves argv alone |
| ArgpParser.StepProgress | argp/argp-parse.c:936-1201 | every step that goes on keeps first <= last <= next <= argc and the other invariants (so the asserts at lines 961, 1072 and 1095 hold) and decreases (not args_only, argc - next, nextchar), although next jumps back |
| ArgpParser.StepError | argp/argp-parse.c:1248-1249 | the loop of argp_parse goes on exactly after the steps that should be followed by another |
| ArgpParser.Run | argp/argp-parse.c:1209-1254 | the loop terminates, with an outcome other than "go on" |
| ArgpScan.DispatchKeepsScanning | argp/argp-parse.c:984-1013 | calling the parser of an option extends what has been done and shortens what is planned by the same call |
| ArgpScan.StepArgKeepsScanning | argp/argp-parse.c:1059-1078 | skipping an argument in PERMUTE, with the exchange it may need, keeps the part not yet scanned and the order of options and of skipped arguments |
| ArgpScan.LayOutExchanged | argp/argp-parse.c:1033-1043 | the last exchange lays argv out as the plan says |
| ArgpScan.StepQuoteLaysOut | argp/argp-parse.c:1092-1114 | a "--" ends scanning with argv laid out: options, then skipped arguments, then the rest |
| ArgpScan.StepEndLaysOut | argp/argp-parse.c:1028-1048 | the same at the end of argv |
| ArgpScan.OfferTrace | argp/argp-parse.c:756-802 | offering an argument as ARG and ARGS to all groups delivers it at most once and makes no option call |
| ArgpRuns.PermuteRun | argp/argp-parse.c:936-1201 | PERMUTE and REQUIRE_ORDER, whole run: final argv is the options and their values in order, the skipped arguments in order, then what follows the "--"; next, the option calls and the arguments delivered are those of the reference pass; a run that ends at a refused option has made the first of its option calls |
| ArgpRuns.EveryState | argp/argp-parse.c:936-1201 | in every state of such a run argv is a permutation of the original, argv from next on is untouched while options are looked for, and laid out afterwards, with next just past the options and the arguments delivered |
| ArgpRuns.StepRearranges | argp/argp-parse.c:936-1201 | a step leaves argv alone or exchanges the skipped block with the options after it |
| ArgpRuns.QuoteMarks | argp/argp-parse.c:1092-1114 | the step over "--" marks where the quoted part begins, and no other step does |
| ArgpModes.OrdersAgree | argp/argp-parse.c:1059-1091 | PERMUTE and RETURN_IN_ORDER, with parsers that accept each argument, make the same option calls and deliver the same arguments in the same order; PERMUTE only delays the arguments |
| ArgpInOrder.RunInOrder | argp/argp-parse.c:936-1201 | RETURN_IN_ORDER, whole run, any end: option calls and accepted arguments come interleaved as a left-to-right reading of argv has them, all of them or the first; a rejected argument is the next of them; argv is not touched |
| ArgpInOrder.ReadingHalves | argp/argp-parse.c:936-1201 | that reading has the option calls and the arguments of the reference pass |
| ArgpInOrder.HalvesOfTrace | argp/argp-parse.c:756-802 | and the interleaved events of a trace its option calls and deliveries |
| ArgpModes.RunDelays | argp/argp-parse.c:1059-1091 | PERMUTE and REQUIRE_ORDER deliver no argument before the last option |
| ArgpModes.StepExtends | argp/argp-parse.c:936-1201 | which calls a step may make: only option calls while scanning, only argument calls afterwards, except in RETURN_IN_ORDER |
| ArgpModes.ScanAgrees | argp/argp-parse.c:936-1201 | the reference pass does not depend on the parsing functions or on which of the two orders is used |
| ArgpLifecycle.Lifecycle | argp/argp-parse.c:552-749 | after a successful init every group with a parser sees INIT (opt or ARG or ARGS)* NO_ARGS? END? (SUCCESS? or ERROR) FINI, exactly once and never both SUCCESS and ERROR |
| ArgpLifecycle.VerdictPhase | argp/argp-parse.c:666-707 | where the end-of-arguments calls leave each group |
| ArgpLifecycle.ConcludePhase | argp/argp-parse.c:709-749 | ERROR or SUCCESS and then FINI bring every group to the end of the protocol |
| ArgpCalls.ParseIsHonest | argp/argp-parse.c:228-244 | in every parse, each answer is the one that the group's own parsing function gave to those arguments after those calls |
| ArgpCalls.OfferAsks | argp/argp-parse.c:756-802 | an argument is offered to each group in order, first as ARG and then as ARGS, until one takes it; else to all |
| ArgpCalls.OfferAnswers | argp/argp-parse.c:756-802 | all but the last of these calls answered EBADKEY, and the last gives the result |
| ArgpCalls.InitAsks | argp/argp-parse.c:612-656 | INIT goes to all groups up to a failure, and scanning starts at index 1, or 0 with PARSE_ARGV0 |
| ArgpCalls.GoodEndAsks | argp/argp-parse.c:660-749 | a parse that is not refused asks NO_ARGS of the idle groups and END of all, if nothing is left, then SUCCESS and FINI, in these orders; a failure cuts this short and leads to ERROR and FINI |
| ArgpCalls.RefusedEnd | argp/argp-parse.c:660-749 | a refused parse asks ERROR and FINI of all groups and returns the error, EINVAL for EBADKEY |
| ArgpAccounting.NoArgsOnlyToIdle | argp/argp-parse.c:676-680 | NO_ARGS goes only to groups that accepted no argument |
| ArgpAccounting.RunCounted | argp/argp-parse.c:756-802 | in all runs the args_processed counts match the arguments that each group accepted |
| ArgpAccounting.CountsAddUp | argp/argp-parse.c:783-799 | however the run ends, the counts add up to the arguments consumed, one by one or all at once; to those delivered, if none took all; and outside RETURN_IN_ORDER to the elements between the options and next |
| ArgpAccounting.RunConsumes | argp/argp-parse.c:783-799 | in every order and from every state, the counts grow by just what steps that offer an argument pass over |
| ArgpCallOrder.CallOrder | argp/argp-parse.c:618-749 | all calls of a parse come in stages; INIT goes up the array of groups, END, SUCCESS and FINI go down |
| ArgpCallOrder.ParentsFirst | argp/argp-parse.c:618-749 | for every tree of argps: a group gets INIT before the groups whose parent entries lead to it, and END, SUCCESS and FINI after them |
| ArgpCallOrder.NodesAroundDescendants | argp/argp-parse.c:618-749 | the same for all nodes below it in the tree, also below an argp without a group |
| ArgpSubtree.SubtreeIsRange | argp/argp-parse.c:437-489 | the groups of a node and of all below it have consecutive numbers from its own on, and no others do |
| ArgpSubtree.NodeHasGroup | argp/argp-parse.c:437-489 | the group entered under the number of a node is that of its argp |
| ArgpSubtree.NumberIsUnique | argp/argp-parse.c:437-489 | no two nodes share a group |
| ArgpErrorFlag.RefusedParse | argp/argp-parse.c:660-749 | every parse in which an option's parser answers EBADKEY returns 0 if and only if the option is a short one, RETURN_IN_ORDER met an argument and no long option after it, the caller takes the rest or nothing is left, and no later call fails |
| ArgpErrorFlag.FinalizeRefused | argp/argp-parse.c:660-749 | what parser_finalize makes of EBADKEY and the flag, in both directions |
| ArgpErrorFlag.FlagRightIff | argp/argp-parse.c:936-1201 | for every run ending in EBADKEY: the flag tells arguments from options wrongly iff RETURN_IN_ORDER met an argument, no long option after it, and in the last state a short option is to be handed to its parser |
| ArgpErrorFlag.FlagStep | argp/argp-parse.c:961-1013 | the same for a single step |
| ArgpErrorFlag.FlagMeaning | argp/argp-parse.c:936-1201 | what the flag means at every point of a run |
| ArgpErrorFlag.RefusalSwallowed | argp/argp-parse.c:1011-1012 | the arguments p f -x, on which a refused option is reported as success, also to a caller who takes no arguments left over |
| ArgpResults.SucceedsIff | argp/argp-parse.c:660-749 | PERMUTE and REQUIRE_ORDER: argp_parse returns 0 if and only if no option and no argument failed, the caller takes what is left or nothing is, and no later call fails |
| ArgpResults.SuccessfulParse | argp/argp-parse.c:1209-1254 | every such parse that returns 0: argv is laid out, all options were called, end_index is past the options and the arguments consumed, and these were delivered |
| ArgpObject.Parser.CallGroup | argp/argp-parse.c:228-244 | calling a group's parser, as on values |
| ArgpObject.Parser.OfferToGroups | argp/argp-parse.c:756-802 | the loop over the groups equals OfferArg |
| ArgpObject.Parser.ParseArg | argp/argp-parse.c:756-802 | parser_parse_arg with its updates of next and args_processed equals the specification |
| ArgpObject.Parser.ParseNext | argp/argp-parse.c:936-1201 | parser_parse_next on the fields and on argv in place equals Step |
| ArgpObject.Parser.Steps | argp/argp-parse.c:1248-1249 | the loop on the object equals Run |
| ArgpObject.Parser.Finish | argp/argp-parse.c:660-749 | parser_finalize with its loops up and down the groups equals Finalize, and stores end_index as EndIndex says |
| ArgpObject.ArgpParse | argp/argp-parse.c:1209-1254 | the whole of argp_parse on a given set of groups: error and calls equal Parse, argv is permuted in place as by Run, and end_index is stored |
| ArgpGroups.CalcSizes | argp/argp-parse.c:526-549 | the recursion counts groups and child inputs of the whole tree |
| ArgpGroups.ConvertState.ConvertOptions | argp/argp-parse.c:437-489 | the recursion enters exactly the groups of the tree in preorder, with parents and slots, and never exceeds the storage |
| ArgpGroups.StorageAccounting | argp/argp-parse.c:437-549 | for every tree the groups are as many as counted, the slot ranges of groups are disjoint and within the storage, and each parent_index lies in its parent's range |
| ArgpGroups.FlattenStacked | argp/argp-parse.c:437-489 | slots of consecutive groups follow each other without overlap |
| ArgpGroups.FlattenParents | argp/argp-parse.c:475-486 | every group with a parent comes after it and is the child that its index says |
| ArgpGroups.PassInputs | argp/argp-parse.c:616-638 | every access to inputs and slots is in bounds, every group that has its turn gets the input that its parent left for it, and the turns end with the first INIT call that fails |
| ArgpGroups.ChildInput | argp/argp-parse.c:618-638 | a child gets what its parent's function left for it; without such a function the first child gets the group's own input |
| ArgpHelpTable.GreedyTest | argp/argp-help.c:559-582 | comparing an option with the next character of the string recognizes exactly the unshadowed options |
| ArgpHelpTable.WalkIsExact | argp/argp-help.c:559-582 | in a sound table the walk over an entry from its start position picks exactly those of its options whose key occurs nowhere before |
| ArgpHelpTable.Hol.Make | argp/argp-help.c:445-511 | make_hol builds a sound table of the option vector |
| ArgpHelpTable.Hol.OneEntry | argp/argp-help.c:497-505 | an entry takes an option with all its aliases, and the string all keys not yet in it |
| ArgpHelpTable.Hol.Append | argp/argp-help.c:842-927 | hol_append keeps the table sound and concatenates the options, although it filters only against the left string |
| ArgpHelpTable.Hol.MergeEntry | argp/argp-help.c:899-912 | its inner loop copies exactly the keys that are first in their own part and absent from the left one |
| ArgpHelpTable.UnshadowedRight | argp/argp-help.c:905-909 | why that suffices |
| ArgpHelpTable.ArgpHol | argp/argp-help.c:1373-1392 | for every tree the string is the first-occurrence dedup of the short keys in preorder, and all positions are right |
| ArgpHelpDispatch.ShortIterate | argp/argp-help.c:559-582 | hol_entry_short_iterate visits exactly the options that the walk picks, with the option each stands for, and stops at the first nonzero answer |
| ArgpHelpDispatch.VisitsVisible | argp/argp-help.c:559-582 | these are all that are picked and not hidden, in order, up to the first nonzero answer |
| ArgpHelpDispatch.RealIsFirst | argp/argp-help.c:568-579 | the option an alias stands for is the first of the entry |
| ArgpHelpDispatch.SlotsArePreorder | argp/argp-parse.c:319-339 | the options that the parser searches are those of the tree in preorder |
| ArgpHelpDispatch.FirstIsDispatched | argp/argp-parse.c:319-339 | the parser dispatches a key to its first occurrence |
| ArgpHelpDispatch.HelpAgreesWithDispatch | argp/argp-help.c:842-927 | for every tree and printable key, help shows and the parser dispatches the same option, if and only if no documentation option comes first with the key |
| ArgpHelpDispatch.EntryOfDispatched | argp/argp-help.c:559-582 | so the entry whose walk picks the key holds the option that find_short_option returns |
| ArgpHelpDispatch.DocFirstDisagrees | argp/argp-parse.c:319-339 | a tree on which they disagree |
| ArgpUsage.ArgsLevels | argp/argp-help.c:1396-1410 | counts exactly the digits that argp_args_usage uses |
| ArgpUsage.FindAlternative | argp/argp-help.c:1429-1440 | the scan finds alternative number level, and knows whether it is the last |
| ArgpUsage.ArgsUsage | argp/argp-help.c:1417-1470 | one call prints the pattern of its digits, turns them by one if told to, touches no digit outside its subtree and says whether more patterns follow |
| ArgpUsage.TickIsSuccessor | argp/argp-help.c:1417-1470 | turning adds one to the mixed-radix value, or wraps from the last to 0 with a carry |
| ArgpUsage.ValueInjective | argp/argp-help.c:1417-1470 | different digits have different values |
| ArgpUsage.ValueBound | argp/argp-help.c:1417-1470 | values stay below the product of the numbers of alternatives |
| ArgpUsage.PatternsIsProduct | argp/argp-help.c:1417-1470 | that product is the one over all argps of the tree |
| ArgpUsage.UsageLines | argp/argp-help.c:1606-1656 | the loop prints the patterns of values 0, 1, 2, and so on up to the product over all nodes, and leaves every level at 0 |
| ArgpUsage.EveryPatternOnce | argp/argp-help.c:1606-1656 | all digits are shown, each on the line that its value says |
| ArgpUsage.LinesEnumerate | argp/argp-help.c:1606-1656 | the lines are all choices of one alternative from each args_doc, in preorder, and no choice is on two lines |
| ArgpUsage.LinesOfDoc | argp/argp-help.c:1429-1446 | the alternatives are what stands between the line ends of an args_doc |
| ArgpClusters.ClusterCmp | argp/argp-help.c:684-701 | the loops deliver a number if and only if the depths are equal, and otherwise reach a null parent |
| ArgpClusters.NestedClusters | argp/argp-help.c:684-701 | two clusters that cannot be compared |
| ArgpClusters.CmpBelowCommonAncestor | argp/argp-help.c:684-701 | what is compared are the two ancestors just below the lowest common one |
| ArgpClusters.CmpAntisymmetric | argp/argp-help.c:670-701 | exchanging the clusters exchanges the sign |
| ArgpClusters.CmpTransitive | argp/argp-help.c:670-701 | strictly-before is transitive, without a condition on siblings |
| ArgpClusters.CmpTotal | argp/argp-help.c:670-701 | when siblings differ in group or index only a cluster itself compares equal |
| ArgpClusters.SiblingCmpSign | argp/argp-help.c:670-682 | the order of siblings: groups 0, 1, ..., n, -m, ..., -1, and the higher index first |
| SslWrite.WvSSLStream.Uwrite | crypto/wvsslstream.cc:430-551 | uwrite on its fields equals Write: state, attempts and returned count |
| SslWrite.WvSSLStream.WriteLoop | crypto/wvsslstream.cc:460-547 | its loop terminates and equals Loop |
| SslWrite.FreshLoop | crypto/wvsslstream.cc:462-547 | with an empty bounce buffer SSL takes just what the loop claims, and what stays is the next data |
| SslWrite.HeldLoop | crypto/wvsslstream.cc:462-547 | held data goes first; more than the given buffer becomes the debt |
| SslWrite.CallConservesIff | crypto/wvsslstream.cc:531-542 | one call, any buffer: bytes taken remain bytes claimed plus a debt, if and only if SSL refuses the held data or the buffer repeats what was fixed |
| SslWrite.ChangedBuffer | crypto/wvsslstream.cc:531-542 | a caller who changes the buffer after a retry and is told that bytes were written that never were |
| SslWrite.StreamConservation | crypto/wvsslstream.cc:430-551 | all runs, all lengths, any SSL: the bytes SSL took are stream[0 .. claimed + write_eat], held data is the next of the stream, and held data excludes a debt |
| SslWrite.RunConserves | crypto/wvsslstream.cc:430-551 | the same invariant from any state that has it |
| SslWrite.RetryIsIdentical | crypto/wvsslstream.cc:464-491 | one call keeps the invariant of retries; claiming less than given means SSL refused |
| SslWrite.EveryRetryIsIdentical | crypto/wvsslstream.cc:464-491 | in every run from the start, whatever buffers the caller passes: after anything but success SSL is offered the identical bytes next |
| SslWrite.WriteOffers | crypto/wvsslstream.cc:430-551 | what a call offers to SSL: the held data, then the buffer behind the debt in records, until one is not accepted; nothing without connection or buffer |
| SslWrite.RecordsAre | crypto/wvsslstream.cc:460-470 | records make up the buffer and are 16384 bytes long, but for the last |
| SslWrite.ClosedForGood | crypto/wvsslstream.cc:499-529 | in every run, after a fatal answer the connection is closed and SSL is not called again |
| DBusPending.WvDBusConn.AddPending | dbus/wvdbusconn.cc:507-516 | registers a callback under its serial until the deadline, calling off an old one, and sets the alarm; like all methods it keeps the alarm less than a millisecond past the earliest deadline |
| DBusPending.WvDBusConn.FilterReply | dbus/wvdbusconn.cc:328-343 | a reply that is waited for calls its callback once and takes just that entry away; anything else changes nothing |
| DBusPending.WvDBusConn.CancelPending | dbus/wvdbusconn.cc:492-504 | the same for cancelling |
| DBusPending.WvDBusConn.ExpireOverdue | dbus/wvdbusconn.cc:428-441 | the loop that starts again after each expiry terminates, for any order of the dictionary, and leaves nothing overdue |
| DBusPending.WvDBusConn.MinTimeoutMsec | dbus/wvdbusconn.cc:399-414 | the earliest deadline as a timeout, 0 when it has passed, -1 when nothing is pending |
| DBusPending.WvDBusConn.PostSelect | dbus/wvdbusconn.cc:417-470 | expiry if the alarm has rung, replies, and the next alarm; afterwards nothing waits that is a millisecond past its deadline |
| DBusPending.ExpiryIsExact | dbus/wvdbusconn.cc:428-441 | exactly the overdue entries are gone and each got a timeout, the others are unchanged |
| DBusPending.ExpiredCalls | dbus/wvdbusconn.cc:479-489 | one call for each expired entry, in the order of expiry |
| DBusPending.RunBalances | dbus/wvdbusconn.cc:328-516 | in every reachable state every registered callback was called exactly once or still waits under its serial, the numbers add up, and timeouts only came after the deadline |
| DBusPending.FinishBalances | dbus/wvdbusconn.cc:479-504 | answering, expiring or cancelling one entry keeps that balance |
| DBusPending.AlarmOnTime | utils/wvtimeutils.cc:14-28 | the alarm for a deadline ahead is less than a millisecond off, and late exactly when the deadline's microsecond part is the smaller one by no whole milliseconds (unless clamped) |
| DBusPending.NotRungNotLate | streams/wvstream.cc:1063-1091 | as long as the alarm has not rung no deadline is a millisecond past |
| DBusPending.AlarmRemainingIs | streams/wvstream.cc:1063-1091 | what is left of the alarm is right to the millisecond, and it does not ring a millisecond early |
| DBusPending.AlarmLateExample | utils/wvtimeutils.cc:14-28 | a deadline for which the alarm is set a microsecond late |
| DBusWords.HexRoundTrip | utils/wvhex.cc:40-90 | decoding an encoded byte string gives it back |
| DBusWords.DecimalRoundTrip | dbus/wvdbusserver.cc:76-82 | the server reads the number that the client wrote |
| DBusWords.SplitWords | include/wvstrutils.h:287-335 | any number of words, with any blanks between them, are split into these |
| DBusWords.HexDigits | utils/wvhex.cc:40-90 | the digits that are written, and those that are read |
| DBusWords.HexFails | utils/wvhex.cc:62-90 | the decoder fails exactly on anything but digits and blanks, or on half a byte at the end |
| DBusAuth.Handshake | dbus/wvdbusconn.cc:369-396 | in every interleaving: no error; the server is authorized only if the client is and then knows its user; the client writes the request, BEGIN, then the messages in send order with Hello first; each side reads as messages a prefix of what the other sent |
| DBusAuth.RunIsSound | dbus/wvdbusserver.cc:42-108 | the invariant behind it, for every run: what is queued, in transit, buffered and read makes up exactly what was sent |
| DBusAuth.CanComplete | dbus/wvdbusserver.cc:42-108 | the handshake never gets stuck: from every reachable state a fixed schedule authorizes both |
| DBusAuth.RequestTrySound | dbus/wvdbusserver.cc:45-98 | the server takes NUL and request however they are cut up, and answers once |
| DBusAuth.BeginTrySound | dbus/wvdbusserver.cc:99-108 | BEGIN ends the server's side without eating message bytes that came with it |
| DBusAuth.SendIsWritten | dbus/wvdbusconn.cc:194-205 | a message sent is queued behind the others, and written in order once authorized |
| DBusAlone.ClientAlone | dbus/wvdbusconn.cc:369-396 | a client against any peer: authorized only if the first line that came starts with "OK ", failed only if it does not, and until then nothing but the request is written |
| DBusAlone.ClientAnswers | dbus/wvdbusconn.cc:379-392 | what the client does with a line: BEGIN, or the right error |
| DBusAlone.LineIsCut | dbus/wvdbusconn.cc:259-265 | a line ends at a NUL in it, and is trimmed |
| DBusAlone.ServerAlone | dbus/wvdbusserver.cc:42-108 | a server against any peer: silent before a NUL, then rejections and one OK; authorized only after that and never with an error |
| DBusAlone.ServerAnswers | dbus/wvdbusserver.cc:62-108 | what the server does with a line: OK, REJECTED, success, or the right error |
| DBusAlone.RequestOf1000 | dbus/wvdbusconn.cc:371-377 | the bytes that user 1000 sends |
| DBusAlone.QueueGoesOut | dbus/wvdbusconn.cc:290-304 | a side that becomes authorized writes its queue, as far as the stream takes it |
| DBusAlone.MessageToServer | dbus/wvdbusconn.cc:194-205 | once both sides are authorized, a message sent and carried is read, behind all before it |
| DBusObject.WvDBusConn.SendMsg | dbus/wvdbusconn.cc:194-205 | send on the object equals Send |
| DBusObject.WvDBusConn.ReadLine | dbus/wvdbusconn.cc:259-265 | in gives a trimmed line once it is complete |
| DBusObject.WvDBusConn.Authorized | dbus/wvdbusconn.cc:290-304 | the queue is flushed before the connection counts as authorized |
| DBusObject.WvDBusClientAuth.Init | dbus/wvdbusconn.cc:135-154 | Hello and AddMatch are queued first, then the request goes out |
| DBusObject.WvDBusClientAuth.Authorize | dbus/wvdbusconn.cc:369-396 | the client's authorize equals ClientAuthorize, error branches included |
| DBusObject.WvDBusClientAuth.TryAuth | dbus/wvdbusconn.cc:290-304 | an attempt on the objects is the step ClientTries of the transition system |
| DBusObject.WvDBusServerAuth.Authorize | dbus/wvdbusserver.cc:42-108 | the server's authorize with its fall through equals ServerAuthorize, errors and REJECTED included |
| DBusObject.WvDBusServerAuth.TryAuth | dbus/wvdbusconn.cc:290-304 | an attempt on the objects is the step ServerTries of the transition system |
| CounterMode.WvCounterModeEncoder.IncrCounter | crypto/wvcountermode.cc:40-43 | the carry loop on the counter bytes equals Increment |
| CounterMode.IncrementIsSuccessor | crypto/wvcountermode.cc:40-43 | that is plus one modulo 256^n, least significant byte first |
| CounterMode.CounterPeriod | crypto/wvcountermode.cc:40-43 | counters repeat after exactly 256^n blocks and not before |
| CounterMode.WvCounterModeEncoder.MakeKey | crypto/wvcountermode.cc:53-75 | the key for all whole blocks, and with flush for the rest, cut to length |
| CounterMode.WvCounterModeEncoder.XorIn | crypto/wvcountermode.cc:77-99 | however the buffers cut up their data, exactly the appended part is mixed with the input, and the input consumed |
| CounterMode.WvCounterModeEncoder.Encode | crypto/wvcountermode.cc:46-101 | one call: output appended, counter and what stays in the input, for every chunking |
| CounterMode.CallTakes | crypto/wvcountermode.cc:46-101 | without flush all whole blocks are encoded and less than one is left; with flush nothing is left |
| CounterMode.CtrAt | crypto/wvcountermode.cc:46-101 | byte i of block b is the input byte xor byte i of the encryption of counter + b |
| CounterMode.CtrTwice | crypto/wvcountermode.cc:46-101 | encoding again from the same counter restores the data |
| CounterMode.CtrSplit | crypto/wvcountermode.cc:46-101 | whole blocks can be encoded apart from what follows |
| CounterMode.SessionIsOneFlush | crypto/wvcountermode.cc:46-101 | any series of calls without flush and a final flush equals one flush of all data, output and counter |
| CounterMode.SessionRoundTrip | crypto/wvcountermode.cc:46-101 | a decoder restores the data whatever pieces either side gets |
| WvStrings.TrimEndIs | utils/wvstrutils.cc:59-79 | trimming the end leaves a prefix, takes off only blanks, and all of them |
| WvStrings.TrimStartIs | utils/wvstrutils.cc:59-79 | trimming the start leaves a suffix, takes off only blanks, and all of them |
| WvStrings.SameIs | configfile/cfgsection.cc:26-37 | names are the same if they differ only in capitals |
| ConfText.ParseSectionIs | configfile/wvconf.cc:439-452 | a section line is one in brackets whose first closing bracket ends it; its name is trimmed |
| ConfText.ParsedIsOk | configfile/wvconf.cc:455-466 | what a line says is an entry that dump prints as a line saying the same |
| ConfText.EntryRoundTrip | configfile/cfgsection.cc:76-88 | a printed entry is read back as it was |
| ConfText.LinesOfText | configfile/wvconf.cc:216-216 | reading lines inverts printing them |
| ConfMeaning.LineSays | configfile/wvconf.cc:233-252 | a line with an equal sign gives the trimmed name before the first one the trimmed value behind it |
| ConfMeaning.LineNames | configfile/wvconf.cc:233-252 | a line without one names an entry with the empty value |
| ConfMeaning.LineOpens | configfile/wvconf.cc:439-452 | a line in brackets opens the section named in them |
| ConfMeaning.LoadMeans | configfile/wvconf.cc:177-258 | for every file, store, section and entry: the values afterwards are what the lines say one after the other, added while a section is new, and otherwise replacing or deleting the first |
| ConfMeaning.SetChangesOne | configfile/cfgsection.cc:47-65 | set changes, deletes or adds one entry, and all others stay as and where they are |
| ConfMeaning.SetReports | configfile/wvconf.cc:354-382 | set on the configuration changes at most the one section, and reports a change exactly when the section said something else |
| ConfMeaning.GetLooks | configfile/wvconf.cc:270-286 | get asks the section first, and without a section, or one that does not exist, the global entry and then the default |
| ConfMeaning.SavePrints | configfile/cfgsection.cc:76-88 | the printed text, entry by entry and section by section |
| ConfStore.LoadIsStorable | configfile/wvconf.cc:177-258 | every text loads, from any storable store, into a storable one |
| ConfStore.SaveThenLoad | configfile/wvconf.cc:501-509 | the printed text of a storable store loads as that store, sections and entries in order |
| ConfStore.RoundTrip | configfile/wvconf.cc:501-509 | a store survives saving and loading if and only if it is storable |
| ConfStore.LoadSaveLoad | configfile/wvconf.cc:177-258 | for every text, saving what was loaded and loading that changes nothing |
| ConfStore.QuickSetAgrees | configfile/cfgsection.cc:47-73 | quick_set and set do the same on entries without empty values and repeated names |
| ConfStore.SameEntryOk | configfile/cfgsection.cc:47-65 | set keeps the old spelling of a name, and an entry prints as an entry under either spelling |
| ConfInherit.AnswerIsUnique | configfile/wvconf.cc:270-286 | the specification of get determines one answer |
| ConfInherit.NothingMore | configfile/wvconf.cc:276-283 | once a name is in the cache the rest of the chain has nothing that was not looked at |
| ConfInherit.Earlier | configfile/wvconf.cc:276-283 | a chain that comes back to a section stays within those before |
| ConfInherit.SetThenGet | configfile/wvconf.cc:354-382 | get returns what was set, for a trimmed entry name |
| ConfInherit.SetUntrimmedThenGet | configfile/wvconf.cc:354-382 | for a name with blanks at its ends: get finds what was set under the trimmed name, and under the given one only the default, since set trims and get does not |
| ConfInherit.SetEmptyThenGet | configfile/wvconf.cc:354-382 | after the empty value was set, get returns an empty value that was there already, else the next entry of that name in the section, else what the section inherits |
| ConfInherit.SetThenReload | configfile/wvconf.cc:354-382 | a store changed by set with an entry that a line can say is restored by saving and loading |
| ConfInherit.SetSurvivesIff | configfile/wvconf.cc:354-382 | from a storable store: what set leaves is restored if and only if the value is empty, or a file can say section and entry |
| ConfInherit.BlankIsLost | configfile/wvconf.cc:354-382 | a call of set on the empty configuration whose result is not restored |
| ConfObject.WvConfigSection.Lookup | configfile/cfgsection.cc:26-37 | the first entry with the name, without regard to case |
| ConfObject.WvConfigSection.SetEntry | configfile/cfgsection.cc:47-65 | set on the section: replaced, appended or deleted |
| ConfObject.WvConfigSection.QuickSetEntry | configfile/cfgsection.cc:68-73 | appends in any case |
| ConfObject.WvConfigSection.Dump | configfile/cfgsection.cc:76-88 | prints one line for each entry |
| ConfObject.WvConf.LoadFile | configfile/wvconf.cc:177-258 | the loop over the lines, on section objects, equals LoadInto |
| ConfObject.WvConf.Save | configfile/wvconf.cc:501-509 | the printing loops give the text of Save |
| ConfObject.WvConf.GetFrom | configfile/wvconf.cc:270-286 | get terminates for every configuration, cyclic ones too, and returns the value of the first section on the chain of Inherits entries that defines the entry, else the global one, else the default |
| ConfObject.WvConf.SetIn | configfile/wvconf.cc:354-382 | WvConf::set: new section, dirty flag and entry |

## Left out

- ArgsUsage: keeps levels as numbers where the source has a `char`, which is enough for 127 alternatives.
- Encode: does not model a block cipher that fails, as what is in the output then depends on what the cipher wrote before, nor a counter of no bytes, for which the source does not end.
- AddPending: a serial of 0 is left out, as the source asserts against it; time 0 stands for "no deadline" in `mintimeout_msec`, so the clock is past it.
- PostSelect: does not model what `alarm_remaining` corrects when the clock has gone back, nor that `callback` clears an alarm that has rung, until `post_select` sets it again.
- argp: printing, gettext, `help_filter`, environment, `exit` and the built-in help and version parsers; `dgettext` and `filter_doc` are the identity. `POSIXLY_CORRECT` and the flags appear as the ordering in `Config`.
- argp: parsing functions that move `next` or edit `argv`. With a null option vector an argp with a parser counts as having no options; the searches of the source would follow the null pointer.
- argp: the size of the string of short options for LONG_ONLY, which `calc_sizes` counts differently from how `convert_options` fills it; the string is a parameter of `Config`.
- argp: `assert (isascii (key))` in `find_short_option` is the outcome `Abort`, after which nothing is claimed.
- argp: sorting the help table, its layout and `argp/argp-fmtstream.c`; hol entries carry only options and string position, not group, cluster or order, and `hol_append` merges no clusters. Differences of group numbers do not overflow.
- SSL: sending on what was written before the connection was made (`setconnected`), reading, certificates, and OpenSSL itself beyond the answer of `SSL_write`.
- D-Bus: marshalling (messages are strings), the generic filters, `select`, the bus functions of the server, requests of clients other than `WvDBusClientAuth`, and the end of the stream while a line is incomplete.
- D-Bus: a bounded output buffer during authentication, so lines of the handshake are written whole. `num()` reads digits only. Callbacks do not call back into the connection.
- Counter mode: `setcounter` and `getcounter`.
- Config: files, the sticky bit, logging, callbacks, passwords and `fuzzy_get`. Strings do not contain NUL, and a null entry name or value is not modelled.
