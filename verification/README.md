# Matahari, verified parts

Matahari is a set of agents for managing systems over QMF, with a Python console. This project
models its parts with real logic in Dafny and proves what they promise.

- **Shell command grammar** (`Arguments`, `ArgumentGraph`, `ArgumentPaths`, `Matching`,
  `CommandLine`, `AcceptedLines`, `WholeExpansions`, `EndlessLists`, `HandlerValues`,
  `Completions`). A command is declared as a tree of keywords, parameters, optional groups and
  repeated groups. Three pieces of code read that tree: a greedy matcher that pops words off a
  shared list and rolls optional groups back, a graph of allowed argument sequences, and tab
  completion along the paths of that graph. The graph is proved exact for the tree, and every
  accepted line is proved to run along an enumerated path and to be completable word by word.
  For declarations in which no two arguments compete for a word, the accepted lines are proved to
  be exactly those the tree allows, where the last optional group a line begins may stop short.
  On which declarations that can happen, and on which matching may never end, is proved exactly;
  so is what a handler receives and what completion offers.
- **D-Bus bridge** (`Signature`, `Marshalling`, `RoundTrip`, `Decoding`, `BasicTypes`). The
  signature scanner, the encoder it steers, and the decoder. What the encoder does with the characters of a signature is proved
  to be what the printed type says, for every value; which values are reported as written, and
  which of these have the declared type, is characterised exactly; reading back gives the value
  normalised to its type, and reading a message of known codes
  loses nothing but its layout.
- **DNS SRV records and failover** (`DnsSrv`, `Failover`). Adding, weighting and sorting of
  records with adversarial random draws, and the loop that tries the servers in turn.
- **Processes and actions** (`ChildTracker`, `Actions`, `ResultEvents`, `Sysconfig`). Transition
  systems for the child table with its timers, for one-shot and recurring actions on top of it,
  for the messages that report results, and for system configuration requests.
- **Console** (`FanOut`, `Shell`, `PackageSelection`). The asynchronous method call on many
  objects with its lock, the modes and the proxy cache that must follow the filters, and the
  package name that travels through shared state.

Code that changes things step by step is modelled by classes and methods with loops; each is
proved equal to a function on values, and the properties are proved about those functions and
about whole runs. `dafny verify dfyconfig.toml` checks the project.

Conventions worth knowing:

- An argument object is identified by a number, as the source's dictionaries identify it by
  identity. A parameter's converter is an arbitrary predicate on words; it never yields "nothing".
- A converter that raises, and any other exception of the matcher, is `Invalid`.
- A D-Bus message is a tree of typed values. Doubles are terms: given, made from an integer, or
  widened from a float.
- The random numbers of the weighted sort are given. The kernel's choice among dead children, the
  broker's answers and the outcome of each system call are parameters or arbitrary choices.

Results where the code does not do what one would expect, with the condition under which it does:

- A command that ends in an empty optional group has no enumerated path, so it is never
  completed, although its lines are accepted (`CommandLine.EmptyGroupAccepts`,
  `ArgumentPaths.GraphIsExact`, `CommandLine.CompletionReachesWords`).
- Matching is sound for the graph but not complete: an optional keyword takes a word a later
  parameter could have had (`AcceptedLines.GreedyMissesPath`). A line that gives what the
  declaration calls for is accepted if no other argument that could come at some point takes the
  word there (`AcceptedLines.UncontestedIsAccepted`), and if the declaration has no such arguments
  at all, the accepted lines are exactly those (`AcceptedLines.AcceptsSufficientLines`). These
  conditions are sufficient, not necessary: with the same optional keyword twice in a row the
  first takes the word and the line is accepted all the same (`AcceptedLines.ContestedYetAccepted`).
- An accepted line need not give a whole expansion: `foo bar` is accepted for
  `'foo', ('bar', 'PARAM')`, and the handler gets a group of one value instead of two
  (`WholeExpansions.ShortGroupAccepted`). What suffices is always a whole expansion exactly if no
  optional group with nothing but optional groups behind it has a keyword or parameter with
  something before it (`WholeExpansions.SufficientIsWhole`); for declarations without competition
  the same condition decides whether all accepted lines are whole (`WholeExpansions.LinesAreWhole`).
- Matching may never end: a repeated group goes round for ever on a word it does not take if all
  its members are optional groups (`EndlessLists.EndlessInput`). As long as
  lists inside it cannot, a list can do so exactly if that is the case
  (`EndlessLists.ListMayBeEndless`), and a command whose list comes last exactly if its list can
  (`EndlessLists.CommandMayBeEndless`).
- Completion of a host offers its name without the space that ends a word
  (`CommandLine.HostWithoutSpace`); a list of names is offered with spaces exactly if the completer
  adds them or there are no names (`CommandLine.NamesSuggestThemselves`).
- What completion offers for `select class` without a package depends on earlier lines: a package
  completed, or left without a class, is remembered (`PackageSelection.ForeignClassOffered`). The
  offers are right exactly if the package remembered has the classes of the default one
  (`PackageSelection.CompletionFollowsHistory`), and which is remembered after a history is given by
  `PackageSelection.RememberedWasLeft`. What a line selects does not depend on them.
- A structure given too few values is written short, and a variant given a value that is not
  simple is written empty, both reported as success (`RoundTrip.WrongTypeInputs`); exactly the
  values that are taken without fitting do this (`RoundTrip.WrongTypeSuccess`).
- A signature in a message is read as nothing, alone of the basic values a message of the model can
  hold (`BasicTypes.BasicsRead`, `Decoding.UnknownIsSignature`, `Decoding.VoidIsUnknown`).
- Records get the draws their weights call for exactly if the weights add up to less than
  2^31 - 1 (`DnsSrv.SharesAreExact`). Beyond that the 32-bit remainder of the sum decides: while
  that is 2^31 - 1 or more, only the head of the list is ever chosen (`DnsSrv.HeadIsAlwaysPicked`,
  `DnsSrv.LargeGroupsOutOfRange`).
- A child tracked by its negated pid, as the comment above it suggests for process groups, is
  never killed on timeout (`ChildTracker.GroupOutlivesTimeout`, `ChildTracker.TimeoutNeedsOwnPid`,
  `ChildTracker.GroupsAreNeverKilled`).
- One dispatch clears the table of dead children only if there was at most one; deaths that
  share a SIGCHLD leave a child waiting (`ChildTracker.DispatchClearsOne`,
  `ChildTracker.SecondDeathIsLeft`).
- A fork that fails ends a service or resource action silently: a recurring one is left with
  neither process nor timer, a one-shot one is never released, and no further result is ever
  reported (`Actions.RequestForkFails`, `Actions.RepeatForkFails`, `Actions.RecurringNeverOverlaps`,
  `Actions.OneShotIsReleasedOnce`, `Actions.ForkFailureIsFinal`).
- A selection whose object lookup fails leaves mode and filters apart unless the mode was not to
  change (`Shell.FailedLookupInput`, `Shell.FailedLookupKeepsMode`).

## Model

| member | source | states |
|---|---|---|
| ArgumentGraph.ArgGraph.constructor | src/python/matahari/shell/interpreter/command.py:324-328 | the finished edge table is that of one pass over the list, and the start node is the first root |
| ArgumentGraph.ArgGraph.AddArgs | src/python/matahari/shell/interpreter/command.py:368-396 | roots, leaves and edge table after the pass, with nested groups added in place |
| ArgumentGraph.ArgGraph.AddEdges | src/python/matahari/shell/interpreter/command.py:398-402 | every source gets the destinations appended, and an entry even when there are none |
| ArgumentGraph.AddedEdges | src/python/matahari/shell/interpreter/command.py:368-402 | which edges and which entries the pass adds, as relations on the argument tree |
| ArgumentGraph.ExpansionIsRoute | src/python/matahari/shell/interpreter/command.py:368-396 | every expansion of the tree follows the edges from a root to a leaf |
| ArgumentGraph.RouteIsExpansion | src/python/matahari/shell/interpreter/command.py:368-396 | every walk along the edges from a root to a leaf is an expansion of the tree |
| ArgumentPaths.GetPathsAre | src/python/matahari/shell/interpreter/command.py:341-366 | a path is enumerated exactly if it extends the visited one along edges to a node without an entry |
| ArgumentPaths.FollowsForward | src/python/matahari/shell/interpreter/command.py:320-322 | edges only go forward, so the graph is acyclic and the enumeration finite |
| ArgumentPaths.EnumeratedAre | src/python/matahari/shell/interpreter/command.py:330-366 | the paths enumerated for a command start at its name, follow edges, and end at a node without an entry |
| ArgumentPaths.GraphIsExact | src/python/matahari/shell/interpreter/command.py:320-402 | enumerated paths are expansions; every expansion starts one, exactly if the list does not end in an empty group |
| ArgumentPaths.EnumeratesMaximal | src/python/matahari/shell/interpreter/command.py:320-402 | the enumerated paths are exactly the expansions no other continues, exactly if the list does not end in an empty group |
| Matching.WordList.Pop | src/python/matahari/shell/interpreter/command.py:490-490 | the first word is taken off the shared list |
| Matching.MatchWords | src/python/matahari/shell/interpreter/command.py:486-587 | matching one argument in place, with copy and rollback for groups, equals its function; the list holds the rest |
| Matching.CollateWords | src/python/matahari/shell/interpreter/command.py:428-435 | matching a list of arguments in place stops at the first missing word |
| Matching.RepeatWords | src/python/matahari/shell/interpreter/command.py:578-587 | rounds of a repeated group until no word is left |
| Matching.CollateConserves | src/python/matahari/shell/interpreter/command.py:428-435 | the values handed on hold the matched words in order, the list holds the others; none lost or moved |
| Matching.MatchConserves | src/python/matahari/shell/interpreter/command.py:486-563 | the same for one argument, including a group that was rolled back |
| CommandLine.CollateSound | src/python/matahari/shell/interpreter/command.py:428-435 | the words matched label the start of some expansion, and all of it while words are left |
| CommandLine.MatchSound | src/python/matahari/shell/interpreter/command.py:554-587 | the same for one argument, optional or repeated |
| CommandLine.RunLine | src/python/matahari/shell/interpreter/command.py:177-191 | a line is refused for a bad argument, for missing ones and for excess words |
| CommandLine.AcceptedConserves | src/python/matahari/shell/interpreter/command.py:177-191 | the handler function receives all the words of an accepted line, in order |
| HandlerValues.HandlerGetsShape | src/python/matahari/shell/interpreter/command.py:177-191 | the handler function gets the line's words in the shape of the declaration: one value per keyword or parameter, one group per optional group, the words of a list one by one |
| HandlerValues.CollateShape | src/python/matahari/shell/interpreter/command.py:428-435 | the same for every list of arguments, stopped short or not |
| HandlerValues.RepeatShape | src/python/matahari/shell/interpreter/command.py:578-587 | a list hands on one value per word, for its members in turn, not as a list |
| HandlerValues.DefaultIs | src/python/matahari/shell/interpreter/command.py:551-552 | what stands for an argument that is not given: nothing, the parameter's default, a group of defaults, or an empty list |
| CommandLine.AcceptedIsPath | src/python/matahari/shell/interpreter/command.py:177-191 | an accepted line labels the start of an enumerated path, exactly if the list does not end in an empty group |
| CommandLine.DefaultsSuggestValidWords | src/python/matahari/shell/interpreter/command.py:476-484 | without a completer a fragment has suggestions exactly if it is empty or valid; they continue it, and a valid word is offered with a space |
| CommandLine.NamesSuggestThemselves | src/python/matahari/shell/types.py:30-71 | completers of hosts, packages and classes offer every valid name, and with a space exactly where one is added or there are no names |
| CommandLine.HostWithoutSpace | src/python/matahari/shell/types.py:30-32 | a host is offered without a space |
| CommandLine.Fragments | src/python/matahari/shell/interpreter/command.py:152-156 | the words of the line, ending in the fragment; it is added exactly if it is not the last word already |
| CommandLine.LabelledPathCompletes | src/python/matahari/shell/interpreter/command.py:158-166 | completing along a path that fits the words offers the last word and a space |
| CommandLine.CompletionReachesWords | src/python/matahari/shell/interpreter/command.py:152-170 | up to every word of an accepted line completion offers that word, with a space if the completers add one, exactly if the list does not end in an empty group |
| CommandLine.DefaultCompletionReachesWords | src/python/matahari/shell/interpreter/command.py:152-170 | the same for parameters with the default completer, without conditions on them |
| Completions.CompleteIs | src/python/matahari/shell/interpreter/command.py:152-170 | something is offered exactly if along some expansion every word before the fragment is open and the argument the fragment meets offers it: a keyword that continues it and a space, or a suggestion of a parameter |
| Completions.KeywordsComplete | src/python/matahari/shell/interpreter/command.py:507-511 | every beginning of a keyword of a line makes completion offer the keyword and a space, exactly if the list does not end in an empty group |
| CommandLine.EmptyGroupAccepts | src/python/matahari/shell/interpreter/command.py:554-563 | a command ending in an empty group accepts its line |
| AcceptedLines.CollateGives | src/python/matahari/shell/interpreter/command.py:428-435 | what greedy matching used is an expansion, or one whose last optional group stops short, labelled word by word |
| AcceptedLines.AcceptedSuffices | src/python/matahari/shell/interpreter/command.py:177-191 | every accepted line covers what suffices: an expansion whose last used optional group may stop short before a keyword or parameter |
| AcceptedLines.GroupIsSkipped | src/python/matahari/shell/interpreter/command.py:554-563 | a group none of whose first arguments takes the next word takes no word |
| AcceptedLines.CollateTakes | src/python/matahari/shell/interpreter/command.py:428-435 | along an expansion whose words nothing else could take, matching takes each word for its own argument and leaves the rest |
| AcceptedLines.CollateReaches | src/python/matahari/shell/interpreter/command.py:486-587 | the same where the words stop short: all are used up, and matching stops exactly where they do |
| AcceptedLines.UncontestedIsAccepted | src/python/matahari/shell/interpreter/command.py:177-191 | a line that covers what suffices is accepted if no other argument that may come next could take one of its words |
| AcceptedLines.AcceptsSufficientLines | src/python/matahari/shell/interpreter/command.py:177-191 | where no two arguments that may come next take the same word, a line is accepted exactly if it covers what suffices |
| AcceptedLines.PathsAreAccepted | src/python/matahari/shell/interpreter/command.py:177-191 | there every line that labels a whole enumerated path, or any expansion, is accepted |
| AcceptedLines.GreedyMissesPath | src/python/matahari/shell/interpreter/command.py:712-714 | a declaration with competing arguments and a line that labels a whole path and is refused |
| AcceptedLines.ContestedYetAccepted | src/python/matahari/shell/interpreter/command.py:554-563 | a line whose word two arguments could take, and which is accepted |
| WholeExpansions.SufficientIsWhole | src/python/matahari/shell/interpreter/command.py:554-563 | what suffices is always a whole expansion, exactly if no optional group with only optional ones behind it has a keyword or parameter with a node before it |
| WholeExpansions.AcceptsWholeExpansions | src/python/matahari/shell/interpreter/command.py:177-191 | for such declarations accepted lines cover whole expansions, and without competition exactly those lines are accepted |
| WholeExpansions.OneReading | src/python/matahari/shell/interpreter/command.py:341-366 | without competition a line can be read along one path at most |
| WholeExpansions.LinesAreWhole | src/python/matahari/shell/interpreter/command.py:177-191 | for declarations without competition every accepted line covers a whole expansion, exactly under that condition |
| WholeExpansions.ShortGroupAccepted | src/python/matahari/shell/interpreter/command.py:47-59 | a line whose optional group stops short is accepted and hands on a shorter group, where tuple unpacking is promised |
| WholeExpansions.FullLineTakes | src/python/matahari/shell/interpreter/command.py:554-587 | with every optional group present each word goes to its own argument, and the words of a list at the end to the list |
| WholeExpansions.FullLineAccepted | src/python/matahari/shell/interpreter/command.py:177-191 | a line that gives every argument, all optional ones and a list included, is accepted whatever competes for its words |
| EndlessLists.RoundTakesWord | src/python/matahari/shell/interpreter/command.py:578-587 | a round of a list with a member that is not an optional group takes a word |
| EndlessLists.CollateEnds | src/python/matahari/shell/interpreter/command.py:428-435 | if every list, however nested, has such a member, matching ends on every line |
| EndlessLists.RefusedListIsEndless | src/python/matahari/shell/interpreter/command.py:578-587 | a list of nothing but optional groups never ends on a word nothing in it takes |
| EndlessLists.OptionalListIsEndless | src/python/matahari/shell/interpreter/command.py:578-587 | it is enough that none of its groups takes the word first |
| EndlessLists.ListMayBeEndless | src/python/matahari/shell/interpreter/command.py:578-587 | a list can go round for ever, for some converters and words, exactly if all its members are optional groups |
| EndlessLists.CommandMayBeEndless | src/python/matahari/shell/interpreter/command.py:177-191 | a command whose list comes last has a line on which it never ends, for some converters, exactly if that list is such |
| EndlessLists.EndlessInput | src/python/matahari/shell/interpreter/command.py:578-587 | the smallest such list and word |
| Signature.GetItemLength | src/dbus-bridge/utils.cpp:72-115 | the scanner finds the length its rules give |
| Signature.ScanBrackets | src/dbus-bridge/utils.cpp:83-110 | counting one kind of bracket up to the matching one or the end |
| Signature.ItemLength | src/dbus-bridge/utils.cpp:72-115 | on any string at most its length, and positive exactly if it is not empty |
| Signature.TypeIsPassed | src/dbus-bridge/utils.cpp:83-110 | counting one bracket kind passes over any complete type as a whole |
| Signature.ItemLengthIsExact | src/dbus-bridge/utils.cpp:72-115 | for a complete type followed by anything the length found is that of the type |
| BasicTypes.ItemEndsAtBalance | src/dbus-bridge/utils.cpp:83-110 | on any string that opens a bracket the item ends where that kind of bracket first balances, or with the string |
| Marshalling.AddArg | src/dbus-bridge/method.cpp:270-399 | one value is appended to the message, or the call fails |
| Marshalling.AddElements | src/dbus-bridge/method.cpp:304-309 | the elements of an array, each under the rest of the signature |
| Marshalling.AddFields | src/dbus-bridge/method.cpp:344-358 | the members of a structure or entry, one signature piece after the other |
| Marshalling.AddField | src/dbus-bridge/method.cpp:346-356 | the piece at the cursor is written; the cursor moves on and never passes the end |
| Marshalling.EncodesByType | src/dbus-bridge/method.cpp:270-399 | for every type and every value the signature's characters are handled as the type they print |
| Marshalling.FieldsByType | src/dbus-bridge/method.cpp:344-358 | each value gets one complete type; a surplus value gets the closing bracket and fails |
| Marshalling.FieldIsCut | src/dbus-bridge/method.cpp:346-348 | the piece cut at the cursor is exactly the next complete type |
| Marshalling.BracketIsRefused | src/dbus-bridge/method.cpp:378-386 | no value can be written under a closing bracket |
| RoundTrip.ReadNode | src/dbus-bridge/utils.cpp:211-286 | a message value is read as its type says, containers as lists |
| RoundTrip.ReadMembers | src/dbus-bridge/utils.cpp:270-275 | the members of a container are read in order |
| RoundTrip.WritesDeclaredType | src/dbus-bridge/method.cpp:270-399 | a message of exactly the declared type is written if and only if the value fits |
| RoundTrip.SuccessIfTaken | src/dbus-bridge/method.cpp:270-399 | success is reported exactly for the values taken: basic ones that fit, anything under a variant, lists with at most as many values as fields |
| RoundTrip.WrongTypeSuccess | src/dbus-bridge/method.cpp:344-373 | values that fit are taken; a message of another type is reported as success exactly for values taken that do not fit |
| RoundTrip.WrongTypeInputs | src/dbus-bridge/method.cpp:344-373 | an empty list under a structure and under a variant are such values |
| RoundTrip.TypeGivesSignature | src/dbus-bridge/method.cpp:298-343 | what has the declared type carries the declared signature |
| RoundTrip.DecodeEncode | src/dbus-bridge/utils.cpp:117-286 | every value reported as written is read back normalised, and under the declared signature if it fits |
| RoundTrip.NormWritesTheSame | src/dbus-bridge/utils.cpp:117-209 | the normalised value is taken and writes the same message, and fits exactly if the value did; normalising twice is normalising once |
| RoundTrip.SurplusIsRefused | src/dbus-bridge/method.cpp:344-358 | a list longer than the fields is refused |
| BasicTypes.IntegersWritten | src/dbus-bridge/utils.cpp:136-163 | bytes, 16-bit and signed 32-bit integers are written exactly if they are in range |
| BasicTypes.WideIntegersWritten | src/dbus-bridge/utils.cpp:136-163 | unsigned 32-bit and 64-bit integers are written exactly if they are in range |
| BasicTypes.IntegersConverted | src/dbus-bridge/utils.cpp:164-172 | under a double and in a variant an integer must fit 64 signed bits |
| BasicTypes.SimpleValuesWritten | src/dbus-bridge/utils.cpp:126-195 | other simple values are written under their own code and in a variant, and under no other basic code |
| BasicTypes.RefusedValues | src/dbus-bridge/utils.cpp:117-209 | integers are refused under codes that are no numbers, and lists and nothing under every basic code |
| BasicTypes.BasicsRead | src/dbus-bridge/utils.cpp:219-263 | each code is read as the type of its own width |
| BasicTypes.BareCodes | src/dbus-bridge/method.cpp:286-343 | the bare codes of structures and entries are read like an opening brace; an empty signature fails |
| Decoding.RebuildDecoded | src/dbus-bridge/utils.cpp:211-286 | from what is read and the layout of a message, of any type and with variants that hold anything, the message can be rebuilt |
| Decoding.DecodeIsInjective | src/dbus-bridge/utils.cpp:211-286 | messages of one layout are told apart by what is read from them |
| Decoding.VoidIsUnknown | src/dbus-bridge/utils.cpp:211-286 | nothing is read exactly for a basic value of an unknown code, in variants or not |
| Decoding.UnknownIsSignature | src/dbus-bridge/utils.cpp:219-283 | of the codes a message can hold, that of a signature is the one not known |
| Decoding.ListInVariant | src/dbus-bridge/utils.cpp:277-279 | a list in a variant is read as that list |
| DnsSrv.AddRecordPlace | src/lib/dnssrv.c:196-216 | a new record goes in front of the first one of no lower priority number, and the others keep their order |
| DnsSrv.AddRecordSorted | src/lib/dnssrv.c:63-70 | adding keeps the list sorted by priority |
| DnsSrv.RunningSums | src/lib/dnssrv.c:72-81 | each record gets the 32-bit sum of the weights up to it |
| DnsSrv.Pick | src/lib/dnssrv.c:95-105 | for every possible draw the first record whose sum reaches it exists, whatever the size of the list |
| DnsSrv.FindRecord | src/lib/dnssrv.c:93-105 | the loop finds that record |
| DnsSrv.ApplyWeightSort | src/lib/dnssrv.c:83-109 | the records in the order in which the given random numbers pick them |
| DnsSrv.DrawsGiveOrder | src/lib/dnssrv.c:83-109 | random numbers lead to an order of picks, each by a possible draw |
| DnsSrv.OrderHasDraws | src/lib/dnssrv.c:83-109 | every order of picks comes about by some random numbers |
| DnsSrv.PickInterval | src/lib/dnssrv.c:95-101 | the draws that choose a record are those between the sums before and with it |
| DnsSrv.DrawsMatchWeight | src/lib/dnssrv.c:72-109 | of sum + 1 draws exactly `weight` choose a record, one more the head |
| DnsSrv.SmallGroupsInRange | src/lib/dnssrv.c:95-95 | up to 32768 records the range asked for is a positive signed 32-bit number |
| DnsSrv.SharesAreExact | src/lib/dnssrv.c:72-109 | every record is chosen by the draws its weight calls for, exactly if the sum of the weights is below 2^31 - 1 |
| DnsSrv.HeadIsAlwaysPicked | src/lib/dnssrv.c:95-101 | nothing but the head can be chosen exactly if the 32-bit remainder of the sum is at least 2^31 - 1 or no more than the weight of the head |
| DnsSrv.LargeGroupsOutOfRange | src/lib/dnssrv.c:95-101 | more than 32768 records of the greatest weight are too many; up to 65537 of them only the head is ever chosen |
| DnsSrv.TakeGroup | src/lib/dnssrv.c:136-156 | the leading records of one priority are moved over, zero weights to the front |
| DnsSrv.RecordsSort | src/lib/dnssrv.c:111-164 | group after group, each in the order in which the given random numbers pick it |
| DnsSrv.DrawsGiveSortOrder | src/lib/dnssrv.c:111-164 | random numbers lead to a sorted order |
| DnsSrv.SortOrderHasDraws | src/lib/dnssrv.c:111-164 | every sorted order comes about by some random numbers |
| DnsSrv.ArrangeIs | src/lib/dnssrv.c:146-155 | the picks see the zero weights of a group first, last one first, and then the others in order |
| DnsSrv.SortedStaysSorted | src/lib/dnssrv.c:111-164 | priorities never decrease along the result |
| DnsSrv.PicksKeepZeros | src/lib/dnssrv.c:146-155 | whatever is drawn, records of weight zero keep their order |
| DnsSrv.SortedRecords | src/lib/dnssrv.c:111-216 | for all records added and all draws: a permutation, sorted by priority, zero weights in the order added |
| Failover.Backoff | src/lib/mh_agent.cpp:335-343 | no pause after the first five attempts, then the number of attempts modulo 300 seconds |
| Failover.Connect | src/lib/mh_agent.cpp:311-358 | attempt k goes to server k modulo n and pauses as scheduled; it ends at the first success or without retrying |
| Failover.AttemptsAre | src/lib/mh_agent.cpp:311-358 | where each attempt goes, with records and without, and how long the pause after it is |
| Failover.SlotIsRemainder | src/lib/mh_agent.cpp:323-326 | going round the list of n servers, attempt k is at the remainder of k by n |
| Failover.SweepTriesAll | src/lib/mh_agent.cpp:314-326 | every sweep of n attempts tries each server once, in order |
| Failover.SweepByPriority | src/lib/mh_agent.cpp:304-326 | within a sweep a lower priority number is never tried later |
| ChildTracker.Mainloop.constructor | src/lib/mainloop.c:494-505 | the table starts empty |
| ChildTracker.Mainloop.Add | src/lib/mainloop.c:413-438 | a child enters the table under its absolute pid, with a timer if it has a timeout |
| ChildTracker.Mainloop.TimeoutCallback | src/lib/mainloop.c:366-398 | the first timeout kills and arms a second timer, the second gives up |
| ChildTracker.Mainloop.Wait | src/lib/mainloop.c:446-446 | the kernel hands over one dead child |
| ChildTracker.Mainloop.WaitForTracked | src/lib/mainloop.c:445-455 | untracked children are reaped up to the first tracked one |
| ChildTracker.Mainloop.RunCallback | src/lib/mainloop.c:472-478 | the timer is removed, the callback runs, the entry goes |
| ChildTracker.Mainloop.DeathDispatch | src/lib/mainloop.c:441-491 | one dispatch handles at most one tracked child |
| ChildTracker.StepKeeps | src/lib/mainloop.c:366-491 | every step keeps table, timers and history consistent |
| ChildTracker.ChildrenAreHandledOnce | src/lib/mainloop.c:366-491 | in every run: at most one SIGKILL and one callback per child, one callback once it has left; timeouts reported only after a SIGKILL; each timer has one live entry |
| ChildTracker.KillsHitUnreaped | src/lib/mainloop.c:386-393 | in every run no SIGKILL goes to a reaped process |
| ChildTracker.TimeoutNeedsOwnPid | src/lib/mainloop.c:366-398 | in every run, once a timer of a child has run out it has been sent one SIGKILL, exactly if it was added by its own pid and not as a group |
| ChildTracker.TimeoutIsArmed | src/lib/mainloop.c:413-438 | in every run a process added with a timeout has a timer pending until it is sent SIGKILL, as long as it is in the table; without a timeout it has neither |
| ChildTracker.TimeoutRearmsOnce | src/lib/mainloop.c:377-397 | in every run the first timer to run out leaves a second one pending, and the second leaves none |
| ChildTracker.GroupsAreNeverKilled | src/lib/mainloop.c:410-438 | in every run a child added as a process group is never sent SIGKILL |
| ChildTracker.GroupOutlivesTimeout | src/lib/mainloop.c:366-398 | a run in which the timer of a group runs out without effect |
| ChildTracker.DeathsAreReal | src/lib/mainloop.c:445-446 | in every run a dead child died by an earlier exit and has been dead since |
| ChildTracker.DeathIsSignalled | src/lib/mainloop.c:132-154 | in every run a dispatch is due from a death until there is one |
| ChildTracker.DispatchReaps | src/lib/mainloop.c:441-491 | in every run a dispatch reaps the children handed over and no others, and tells the callback of the tracked one how it died |
| ChildTracker.DispatchClearsOne | src/lib/mainloop.c:441-491 | no dead child stays in the table exactly if there was at most one |
| ChildTracker.SecondDeathIsLeft | src/lib/mainloop.c:132-154 | a run in which a dead child is left without a pending signal |
| Actions.Services.Run | src/lib/services_linux.c:265-401 | an action gets a process and an entry in the child table, or neither if the fork fails |
| Actions.Services.Start | src/lib/services.c:227-244 | a new action is started, and whether its fork succeeded returned |
| Actions.Services.RecurringTimer | src/lib/services_linux.c:171-182 | the repeat timer starts the next run |
| Actions.Services.OperationFinished | src/lib/services_linux.c:184-263 | result, repeat timer or release, in that order around the callback |
| Actions.Services.HandleDeaths | src/lib/services_linux.c:184-263 | a death dispatch finishes the action it belongs to |
| Actions.StepKeepsWorld | src/lib/services_linux.c:171-263 | every step keeps actions, processes and timers in agreement |
| Actions.RecurringNeverOverlaps | src/lib/services_linux.c:243-288 | in every run a recurring action has a process or a timer exactly if none of its forks has failed, never both, never two of either |
| Actions.OneShotIsReleasedOnce | src/lib/services_linux.c:250-288 | in every run a one-shot action has given its one result and is released exactly if its fork succeeded and its process is gone |
| Actions.OneShotStep | src/lib/services_linux.c:184-263 | a started one-shot action is called back and released by the one step that handles its death |
| Actions.ResultsAreEarned | src/lib/services_linux.c:184-211 | the process that ended is the one its action waits for; a timeout result follows a SIGKILL |
| Actions.ResultTellsExit | src/lib/services_linux.c:184-211 | in every run the step that handles a death adds one result: the exit code, a timeout if a signal ended a process that was sent SIGKILL, a failure for any other signal |
| Actions.ResultsStay | src/lib/services_linux.c:184-263 | no other step changes the results of an action |
| Actions.ActionsTimeOut | src/lib/services_linux.c:389-401 | in every run a running action with a timeout has a timer pending until its process is sent SIGKILL; one without has neither |
| Actions.ActionIsAsRequested | src/lib/services.c:227-244 | in every run an action has the interval and timeout it was requested with |
| Actions.FailureIsKnown | src/lib/services_linux.c:280-288 | in every run an action is marked by a failed fork exactly if one of the forks made for it failed |
| Actions.ForkFailureIsFinal | src/lib/services_linux.c:280-288 | in every run nothing happens to an action any more after a failed fork |
| Actions.RequestForkFails | src/lib/services.c:227-244 | a run in which the fork of a request fails, for either kind of action |
| Actions.RepeatForkFails | src/lib/services_linux.c:171-182 | a run in which a recurring action has given a result and its next fork fails |
| ResultEvents.AsyncCallback.constructor | src/service/service-qmf.cpp:80-84 | nothing is sent before the first result |
| ResultEvents.AsyncCallback.Completed | src/service/service-qmf.cpp:106-141 | the first result is the reply, later ones events when they change; the record goes with a one-shot action |
| ResultEvents.MessagesCarryChanges | src/service/service-qmf.cpp:119-133 | reply and events carry exactly the results without consecutive repeats |
| ResultEvents.OneReplyFirst | src/service/service-qmf.cpp:119-133 | there is exactly one reply and it comes first; services raise no events |
| Sysconfig.ConfigAgent.ResultCb | src/sysconfig/sysconfig-qmf.cpp:93-106 | the request is answered with its key's text and its record released |
| Sysconfig.ConfigAgent.StartPuppet | src/lib/sysconfig_linux.c:198-319 | every early exit, and the start of a one-shot action that carries the request and its key |
| Sysconfig.ConfigAgent.StartAugeas | src/lib/sysconfig_linux.c:321-434 | every early exit, and the callback made at once |
| Sysconfig.ConfigAgent.RunUri | src/lib/sysconfig_linux.c:453-501 | already configured, puppet, augeas or an unknown scheme |
| Sysconfig.ConfigAgent.InvokeRun | src/sysconfig/sysconfig-qmf.cpp:121-143 | an answer at once on failure, otherwise left to the callback |
| Sysconfig.ConfigAgent.ActionCb | src/lib/sysconfig_linux.c:118-140 | the key records the outcome, then the request is answered |
| Sysconfig.ConfigAgent.HandleDeaths | src/lib/sysconfig_linux.c:118-140 | handling a death runs the callback of its action, which answers the request of a puppet action |
| Sysconfig.RunCallsBackOnce | src/lib/sysconfig_linux.c:453-501 | a successful run has called back or left that to one action, a failed one did neither |
| Sysconfig.ActsKeeps | src/lib/services_linux.c:184-263 | every step of the actions keeps requests, actions and answers in agreement |
| Sysconfig.AnsweredExactlyOnce | src/sysconfig/sysconfig-qmf.cpp:93-143 | in every run of requests and actions, from any key files, a request has one answer and one release once it has no process in the child table, and none before |
| Sysconfig.PuppetAnswerTellsOutcome | src/lib/sysconfig_linux.c:118-140 | in every run the death of a puppet process answers the request that started it; the answer tells how it ended, OK for exit code 0 alone, exactly if the key file could be written or said so before |
| Sysconfig.RequestResult | src/lib/sysconfig_linux.c:198-501 | the result of a request is that of the first thing that goes wrong, in order |
| Sysconfig.RequestEffects | src/lib/sysconfig_linux.c:453-501 | a configured key is answered at once with its text unless the run is forced; otherwise puppet starts a process and augeas answers with its outcome; which key text is left |
| Sysconfig.FailureIsAnswered | src/sysconfig/sysconfig-qmf.cpp:136-143 | a failed request is answered with its error and released |
| FanOut.StepKeeps | src/python/matahari/core.py:175-195 | every step of sender and receivers keeps slots, numbers and event consistent |
| FanOut.ResultsBelongToCalls | src/python/matahari/core.py:175-195 | in every interleaving a slot is empty or holds the response to its own call; the event means all are filled |
| FanOut.SlotHoldsReceived | src/python/matahari/core.py:181-188 | in every interleaving what a slot holds is the very response that came in for its own call |
| FanOut.AllAnswersSetEvent | src/python/matahari/core.py:181-188 | when all calls of a non-empty list are answered and receivers are done the event is set |
| FanOut.ResponsesFindTheirSlot | src/python/matahari/core.py:181-184 | a response to this invocation is always found; a late one to an earlier changes nothing |
| FanOut.SlotsStayFilled | src/python/matahari/core.py:185-185 | a filled slot stays filled |
| FanOut.LockIsNeeded | src/python/matahari/core.py:181-193 | in every interleaving a response is not found exactly while its request is being sent, and then the lock keeps the receiver out |
| FanOut.NothingSentNothingSet | src/python/matahari/core.py:190-195 | on an empty list the event is never set |
| Shell.Matahari.SetHosts | src/python/matahari/api.py:120-123 | hosts replaced, cache dropped |
| Shell.Matahari.SetClass | src/python/matahari/api.py:125-130 | class and package replaced, properties cleared, cache dropped |
| Shell.Matahari.SetPropertyFilter | src/python/matahari/api.py:132-135 | one property filter added, cache dropped |
| Shell.Matahari.ClearPropertyFilter | src/python/matahari/api.py:137-140 | property filters cleared, cache dropped |
| Shell.Matahari.ClearState | src/python/matahari/api.py:142-146 | everything cleared |
| Shell.Matahari.GetObjects | src/python/matahari/api.py:87-101 | the cached proxy, or a new one under the filters |
| Shell.Console.SetMode | src/python/matahari/shell/mode.py:225-243 | entering a class mode looks the objects up |
| Shell.Console.Run | src/python/matahari/shell/mode.py:81-118 | each command changes filters and mode together |
| Shell.DoKeeps | src/python/matahari/shell/mode.py:245-282 | every command keeps mode, filters and cache in agreement |
| Shell.SessionsAreConsistent | src/python/matahari/shell/mode.py:81-118 | in every session modes match the selections, properties need a class, the cache fits the filters |
| Shell.ObjectsFollowFilters | src/python/matahari/api.py:87-105 | the objects used are those of the filters in force |
| Shell.HostsAreLastSelected | src/python/matahari/api.py:120-123 | in every session the hosts are those last selected, unless cleared since |
| Shell.ClassIsLastSelected | src/python/matahari/api.py:125-130 | in every session class and package are those last selected, unless cleared since |
| Shell.PropertyIsLastSelected | src/python/matahari/api.py:132-140 | in every session a property has the value last selected for it, unless it or the class was cleared since |
| Shell.ClassModesLookUp | src/python/matahari/shell/mode.py:225-243 | in every session a command that enters a class mode has looked the objects up |
| Shell.SameFiltersSameShell | src/python/matahari/shell/mode.py:81-118 | two sessions that got to the same filters are in the same mode and use the same objects |
| Shell.ClearingUndoes | src/python/matahari/shell/mode.py:251-282 | from anywhere in a session clearing what is selected, in either order, leads back to the start |
| Shell.FailedLookupKeepsMode | src/python/matahari/shell/mode.py:87-95 | a failed lookup leaves mode and filters together exactly if the mode was not to change |
| Shell.FailedLookupInput | src/python/matahari/shell/mode.py:92-95 | a class selection in the initial shell whose lookup fails |
| PackageSelection.SharedInfo.Get | src/python/matahari/shell/types.py:44-46 | reading the package forgets it |
| PackageSelection.CompletePackage | src/python/matahari/shell/types.py:65-71 | what completion offers and what it leaves behind |
| PackageSelection.CompleteClass | src/python/matahari/shell/types.py:85-87 | the classes of the package last completed are offered |
| PackageSelection.CompleteLine | src/python/matahari/shell/interpreter/command.py:152-170 | completing a select line tries the path without the package and then the one with it, and leaves a package behind if it ends there |
| PackageSelection.MatchPackage | src/python/matahari/shell/types.py:48-63 | the package handed on is the one the class will be checked against |
| PackageSelection.SelectClass | src/python/matahari/shell/types.py:73-83 | the outcome of a line, whatever came before |
| PackageSelection.Replay | src/python/matahari/shell/mode.py:41-46 | what is remembered after any history of completions and lines |
| PackageSelection.SelectAfter | src/python/matahari/shell/mode.py:41-46 | after any history of completions and lines a line selects the same |
| PackageSelection.RememberedWasLeft | src/python/matahari/shell/types.py:34-87 | after any history another package than the default is remembered exactly if a line left it behind and none since got as far as a package or class |
| PackageSelection.CompletionFollowsHistory | src/python/matahari/shell/types.py:85-87 | after any history completion offers exactly the classes a line without package would select, exactly if the package remembered has the classes of the default one |
| PackageSelection.CompletionWithPackage | src/python/matahari/shell/types.py:65-87 | after a package completion offers exactly the classes the line would select, whatever is remembered; after part of a package name those of the default one |
| PackageSelection.CompletionBeforeClass | src/python/matahari/shell/interpreter/command.py:152-170 | up to the package the keywords and packages that continue the fragment are offered |
| PackageSelection.ForeignClassOffered | src/python/matahari/shell/types.py:65-87 | a completion after which a class that cannot be selected is offered, and one that can is not |
| PackageSelection.ClassesAreSelectable | src/python/matahari/shell/mode.py:41-46 | some line selects a class exactly if it belongs to a listed package, or to the default one and is not named "package" |
| PackageSelection.SelectedIsMatched | src/python/matahari/shell/mode.py:41-46 | the general command matcher accepts exactly the lines that select a class, and hands on that class and package |
| PackageSelection.Selected | src/python/matahari/shell/mode.py:92-95 | a selected class belongs to the package selected with it |

## Left out

- Cancelling an action: it frees the action but leaves its process, so the lifecycle covers runs without it.
- Synchronous execution, fork and exec details, environment variables and pipes of actions.
- Converters that yield None. Repeated groups that are empty or hold groups are matched, but the agreement of matcher, graph and completion is proved for the documented use.
- Command groups, help texts and the splitting of a line into words.
- Failures of libdbus itself (memory, its own argument checks), so opening a container always succeeds in the model.
- What a message contains after the encoder has failed part of the way.
- Building `Method` argument lists and calling D-Bus methods: easy members only.
- The attempt counter's 32-bit overflow after two thousand million attempts.
- A stale `errno` of EAGAIN after a wait that found no dead child, which would make the dispatch spin.
- Completers that depend on shared state are modelled for `select class`; elsewhere a completer is a function of the fragment.
- Stopped children and core dump notes; the processes of a group other than its leader.
- The 10 second limit of the caller's wait in the fan-out call: any state may be the one returned.
- Host, network, RPC and Windows code, option parsing, logging, broker start-up, authorization.
- Action creation checks and argument vectors: easy members only.
