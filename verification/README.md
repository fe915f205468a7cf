# The Deska command line client, verified

Deska keeps an inventory as a database of kinds, objects and attributes. Its command line client parses lines into
signals, has the user confirm them, applies them to the server, and offers changesets, rebasing and diffs on top. This
project models the logic of that client and proves what it keeps.

- **Names, values, addresses.** `PathText`, `Values` and `Ipv6` hold the printers and scanners for object names,
  strings, identifier sets and IPv6 addresses, and say exactly which values survive printing and reading, and which
  texts are addresses (forms 1 and 2 of section 2.2 of RFC 4291).
- **Parser and signals.** `Grammar` states the command grammar and its semantic actions as functions on tokens, `Parser`
  is the object whose methods compute them, and `Signals` the handler that confirms and then replays the signals of a
  line on its own copy of the context stack. `ParserTables` builds the parser's tables from the relations the server
  reports. `GrammarLaws`, `LineLaws` and `StackLaws` prove what one line does to the stack, and that tab completion
  leaves no trace; `Phrases` and `PhraseLines` what lines of any length with names, filters, new objects and attributes
  send, exactly when they are accepted, and what they leave open; `StackRuns` that over whole runs, however the user and the server reply, every stack is well nested
  and can be expanded by the database side.
- **Database access.** `Database` is the server as the client sees it: a set of objects and a filter semantics.
  `Expansion` says what a context stack stands for, `Reachability` what the two recursive searches look for,
  `Existence` what modifications do to the objects and to a cache of existence answers. `DbInteractions` holds the class
  itself, `Functions` deleting and renaming what a context stack stands for, `Selections` what the deletion of a typed
  selection removes, `CacheRuns` whole sessions.
- **Changesets and rebase.** `Rebase` and `RebaseScript` are the three-way merge from the two differences to the script,
  `ScriptFile` its text and what `getline` makes of it, `LineBreaks` the exact condition under which that is what was
  written. `Lexer` takes a line apart, and `RebaseReplay` executes a file by the parser, the signals handler and the user
  interface against the server's objects, where a header creates what it does not find and a deletion takes everything
  inside along; `UserEffects` proves these effects of the user interface's own functions. `ScriptLines`, `RebaseSteps`,
  `Plans`, `Blocks` and `RebaseLaws` prove that the text of the unedited script does exactly the steps of a plan;
  `RebaseOutcome` and `RebaseExtras` when these are our modifications and nothing else; `RebaseDeletions` what becomes of
  the objects we delete, `RebaseNotes` what the comments tell, `RebaseLimits` where rebase falls short. `Changesets` is the protocol between the commands and the server, `RebaseSession` puts everything together.
- **Smaller transformers.** `KindFilter` compiles the comparison of a full name into a filter; `DiffPrinter` and
  `DiffLaws` are the printer of differences and the exact condition under which its blocks come out right, `DiffReading`
  what a reader learns from them; `Schema` and
  `RelationTables` treat the relations between kinds.

A name is a sequence of identifiers; `PathText.PrintThenRead` and `PathText.ReadThenPrint` justify using it in place of
its text. A failing or refusing user, server or file system is a parameter or a nondeterministic choice. Where the
comments of the code and the code differ, the code is modelled: the inner loop of `clearChildDeletions` is meant to be
restarted for every modification but is not, the header of a block is closed by one `end` whatever its depth, and line
breaks in values are printed as they are, into comments too.

## Model

| member | source | states |
|---|---|---|
| PathText.PrintThenRead | src/deska/cli/ContextStack.cpp:146-185 | reading the printed text of any name gives the name back, hyphens and a missing last part included |
| PathText.NamesFromText | src/deska/cli/ContextStack.cpp:176-185 | different names have different texts |
| PathText.ReadThenPrint | src/deska/cli/ContextStack.cpp:146-185 | whatever path is readable denotes a name, and printing that name gives the path without its white space; the same text exactly if there was none |
| PathText.ReadableTexts | src/deska/cli/ContextStack.cpp:146-173 | among texts without white space, the readable ones are exactly the printed names |
| PathText.ObjectTokens | src/deska/cli/PredefinedRules.cpp:41 | the identifier rule accepts exactly the texts of names that do not begin with "where" |
| PathText.PrintVector | src/deska/cli/ContextStack.cpp:176-185 | the loop computes the recursive printer the round trips are proved about |
| PathText.PrintStack | src/deska/cli/ContextStack.cpp:102-113 | fails exactly on stacks with a filter, otherwise yields the text of the names from the bottom to the top |
| Values.StringRoundTrip | src/deska/cli/CliObjects.cpp:136-159 | a string is read back unchanged if and only if it is ASCII, not empty, does not mix both quotes with blanks, and unquoted holds no white space and no misleading first quote |
| Values.SetRoundTrip | src/deska/db/AdditionalValueStreamOperators.h:53-63 | an identifier set is read back unchanged if and only if it is not empty and every member is an acceptable object name |
| Values.ValueRoundTrip | src/deska/cli/PredefinedRules.cpp:74-116 | a printed value of an attribute is read back unchanged by the rule of its type if and only if it is a value of that type with the property above |
| Values.VectorToSet | src/deska/cli/PredefinedRules.cpp:197-204 | the loop yields the set of the elements |
| Ipv6.AcceptsExactly | src/deska/cli/PredefinedRules.cpp:46-62 | the ordered-choice rule accepts a text if and only if it is eight groups, or groups around one "::" that are at most seven |
| Ipv6.FirstCompressedReads | src/deska/cli/PredefinedRules.cpp:49-62 | of the alternatives with "::" the one that is tried first and fits reads the whole address |
| Ipv6.GroupsTooMany | src/deska/cli/PredefinedRules.cpp:47-62 | an alternative that wants more groups than there are fails |
| Ipv6.LeadReads | src/deska/cli/PredefinedRules.cpp:50-62 | how far the greedy repetition in front of "::" gets, for every number of groups |
| StringOrder.FirstDifference | src/deska/cli/CliCommands_DiffRebase.cpp:66-140 | names and kinds are compared by the first characters that differ, and a text comes before every longer one it begins |
| Schema.MeasureDepth | src/deska/cli/Parser_p.cpp:367-376 | the loop that climbs the embedding ends on every acyclic relation and yields the depth |
| Schema.CollectRecursively | src/deska/cli/Parser_p.cpp:1539-1561 | the loop over the vector it is appending to ends on every acyclic relation, with exactly the strict descendants |
| Schema.Graph.FoundIsDescendants | src/deska/cli/Parser_p.cpp:1539-1561 | the collected entries are those a path of direct entries leads to, and no others |
| Schema.WorklistStep | src/deska/cli/Parser_p.cpp:1542-1546 | each round shrinks what the entries still to be visited will contribute in all |
| ParserTables.EmbedsAcyclic | src/deska/cli/Parser_p.cpp:1539-1547 | where embedding never returns to a kind, the recursion through the embedded kinds ends, for it is the inverse relation |
| ParserTables.AddNestedKinds | src/deska/cli/Parser_p.cpp:634-665 | the kinds offered by name are those embedded at any depth in the kind or in one it contains, those offered to filters the directly embedded ones, those offered to "new" the ones embedded in the kind or in one it contains |
| ParserTables.BuildTables | src/deska/cli/Parser_p.cpp:89-136 | every kind gets these tables, and they fit the relations DbInteraction relies on |
| ParserTables.LoadedConsistent | src/deska/cli/DbInteraction.cpp:38-66 | tables loaded from a report in which embedding is acyclic, related kinds are equally deep and no reference is called "name" are what the queries rely on |
| ParserTables.LoadBoth | src/deska/cli/Parser_p.cpp:59-136 | from such a report both constructors get relations and tables that fit each other |
| Parser.Parser.PairNames | src/deska/cli/Parser_p.cpp:382-394 | pairs the parts of a name with the kinds up the embedding, or finds that it ends too early |
| Parser.Parser.CategoryEntered | src/deska/cli/Parser_p.cpp:364-435 | the new stack, flag and signals are those of the specified action, in each of its branches |
| Parser.Parser.CategoryLeft | src/deska/cli/Parser_p.cpp:440-448 | pops one item and sends one signal |
| Parser.Parser.NewObject | src/deska/cli/Parser_p.cpp:351-361 | pushes a nameless object and asks for its creation |
| Parser.Parser.FilterObjects | src/deska/cli/Parser_p.cpp:501-512 | pushes a filter item and sends it |
| Parser.Parser.WholeKind | src/deska/cli/Parser_p_WholeKindParser.cpp:46-48 | attributes and then perhaps a nested kind, or a nested kind alone, or "end", in this order |
| Parser.Parser.Rounds | src/deska/cli/Parser_p.cpp:792-860 | the main loop ends for every line and computes the specified rounds, the check for missing objects included |
| Parser.Parser.Conclude | src/deska/cli/Parser_p.cpp:862-948 | new name, function signal, error report and unwinding as specified |
| Parser.Parser.ParseLineImpl | src/deska/cli/Parser_p.cpp:717-949 | the whole line, from any stack, dry or not |
| Parser.Parser.ParseLine | src/deska/cli/Parser_p.cpp:285-295 | the stack left behind and everything sent are the specified functions of stack and line, which PhraseLines pins down for lines of any length; finished is sent exactly for accepted lines |
| Parser.Parser.TabCompletion | src/deska/cli/Parser_p.cpp:316-346 | leaves stack and signals as they were |
| Parser.Serve | src/deska/cli/Parser_p.cpp:285-346 | for any interleaving of lines and completions, signals and final stack are those of the lines alone |
| GrammarLaws.AcceptedLineReplays | src/deska/cli/Parser_p.cpp:351-448 | replaying the signals of an accepted line never pops an empty stack and ends on the parser's stack |
| GrammarLaws.DryRunIsSilent | src/deska/cli/Parser_p.cpp:316-346 | a dry run sends nothing, whatever the line |
| GrammarLaws.FunctionLineRestores | src/deska/cli/Parser_p.cpp:752-948 | create, delete, show and rename lines leave the stack as they found it, accepted or refused |
| GrammarLaws.OneAnnouncement | src/deska/cli/Parser_p.cpp:285-295 | a line is announced as finished exactly if it is accepted, and reports an error exactly if it is not; where it could not be read to its end the error is the last that is sent |
| GrammarLaws.RoundsFollow | src/deska/cli/Parser_p.cpp:792-860 | in every state of the main loop the stack is the replay of what was sent |
| GrammarLaws.ConcludeFollows | src/deska/cli/Parser_p.cpp:928-948 | unwinding leaves as many blocks as were entered, with balanced signals on success |
| LineLaws.StandardLine | src/deska/cli/Parser_p.cpp:930-948 | a line without "end" leaves the old stack, or that stack with everything it entered, the latter if and only if its last round was a bare kind; on a refused line only if the kind was refused there |
| LineLaws.RoundsEndWithLast | src/deska/cli/Parser_p_WholeKindParser.cpp:46-48 | the flag for a lone kind is decided by the last round |
| LineLaws.EnterNests | src/deska/cli/Parser_p.cpp:364-435 | entering name n from a well nested stack keeps it well nested and extends its path by exactly n, or refuses |
| LineLaws.DepthCheckSuffices | src/deska/cli/Parser_p.cpp:377-410 | behind the depth check the embedding cannot end early and the stack is empty exactly for top-level kinds, so two of the three later refusals never happen |
| LineLaws.LineNests | src/deska/cli/Parser_p.cpp:717-949 | a line without filters or "new" keeps the stack well nested, accepted or refused |
| Phrases.PathInShape | src/deska/cli/Parser_p.cpp:382-394 | the path of a name has its parts in order, each kind embedded in the one before and the named kind at the end |
| Phrases.NamedMatches | src/deska/cli/Parser_p_KindsOnlyParser.cpp:59-92 | "kind name" at any depth, with as many parts as levels are missing, pushes the whole path and announces every level, the innermost one behind "create" as a creation |
| Phrases.FilterMatches | src/deska/cli/Parser_p_KindsFiltersParser.cpp:63-128 | "kind where (filter)" pushes and sends the item with exactly that filter, "all kind" the one without; neither is taken for a name |
| Phrases.AttributeMatches | src/deska/cli/Parser_p_AttributesParser.cpp:39-50 | setting, removing, adding to and removing from a set each send their one signal to the kind that owns the attribute and leave the stack alone |
| Phrases.BehindAttribute | src/deska/cli/Parser_p_WholeKindParser.cpp:46-48 | reading on behind an attribute is the same as starting a new round, except that a kind that ends the line there is not a bare one |
| Phrases.FunctionPhrases | src/deska/cli/Parser_p.cpp:792-860 | behind a function word any number of kinds is read one after the other, and delete, show and rename stop exactly where something completely named is missing |
| Phrases.StandardPhrases | src/deska/cli/Parser_p.cpp:792-860 | without a function word any mixture of kinds, filters, attributes and "end" is read one after the other; the flag is set exactly if the last phrase is a kind behind no attribute |
| PhraseLines.StandardReads | src/deska/cli/Parser_p.cpp:717-949 | every such line is accepted, sends the signals of its phrases in order, and keeps what it entered open exactly if it ends in a bare kind; otherwise it leaves again what it entered |
| PhraseLines.FunctionReads | src/deska/cli/Parser_p.cpp:752-948 | behind a function word such a line is accepted if and only if nothing it insists on is missing, and then sends its phrases, one signal of the function for everything that is open, and one leaving for each level entered |
| PhraseLines.SelectionLine | src/deska/cli/Parser_p_KindsFiltersParser.cpp:63-128 | lines of one selection, on any stack, alone and behind each function word: accepted if and only if the kind can be selected there; the item carries the filter as typed, or none for "all" |
| PhraseLines.NewLine | src/deska/cli/Parser_p_KindsConstructParser.cpp:55-81 | "new kind" is accepted exactly inside a block and not behind "create", behind other function words only if the nameless object counts as existing, and announces a creation without a name |
| PhraseLines.IdentifierLine | src/deska/cli/Parser_p_IdentifiersSetsParser.cpp:57-104 | "add" and "remove" are accepted exactly for the identifier sets of the open block and acceptable identifiers, and send the insertion or the removal |
| PhraseLines.ShowReads | src/deska/cli/Parser_p.cpp:752-790 | "show" alone shows what is open |
| PhraseLines.WordAloneRefused | src/deska/cli/Parser_p.cpp:752-790 | the other function words mean nothing alone |
| StackRuns.AcceptedWithin | src/deska/cli/ParserSignals.cpp:445-473 | after any prefix of the events of an accepted line the replayed stack is the lower part of a stack between two rounds of the parser |
| StackLaws.LineChained | src/deska/cli/Parser_p.cpp:717-949 | any line, with filters, "new" or neither, accepted or refused, keeps the stack fit for expansion: each item one level deeper than the one below, filters directly embedded |
| StackRuns.HandledNests | src/deska/cli/ParserSignals.cpp:445-473 | whatever is refused, fails or throws midway, the stack written back after a line without filters or "new" is well nested again |
| StackRuns.HandledChains | src/deska/cli/ParserSignals.cpp:445-473 | the same for any line and fitness for expansion, generated names included |
| StackRuns.ReachableNested | src/deska/cli/UserInterface.cpp:634-680 | over all runs of such lines with arbitrary replies, and of commands that clear the stack, item i stands at embedding depth i and fits the item below |
| StackRuns.ReachableChained | src/deska/cli/UserInterface.cpp:634-680 | over all runs whatever, with arbitrary replies and identifiers as generated names, the stack satisfies what expandContextStack relies on |
| Signals.SignalsHandler.ParsingStarted | src/deska/cli/ParserSignals.cpp:477-484 | fresh flags, no signals, and the parser's stack twice |
| Signals.SignalsHandler.Collect | src/deska/cli/ParserSignals.cpp:361-434 | every signal is kept, in order |
| Signals.SignalsHandler.Confirm | src/deska/cli/ParserSignals.cpp:92-121 | the answer and the new autoCreate flag, whose effect over a whole line Signals.ConfirmedIffAgreed states |
| Signals.ConfirmedIffAgreed | src/deska/cli/ParserSignals.cpp:74-121 | all signals of a line are confirmed if and only if each leaves a block, or is confirmed or agreed to by the user, or enters a block behind an entered one whose creation the user agreed to, with no block left in between |
| Signals.SignalsHandler.Apply | src/deska/cli/ParserSignals.cpp:47-113 | what one signal does to the handler's stack, which must not be empty when a block is left |
| Signals.SignalsHandler.ConfirmEach | src/deska/cli/ParserSignals.cpp:451-456 | succeeds if and only if every signal is confirmed |
| Signals.SignalsHandler.ApplyEach | src/deska/cli/ParserSignals.cpp:458-466 | applies up to the first failure, never leaving a block that is not there |
| Signals.SignalsHandler.ParsingFinished | src/deska/cli/ParserSignals.cpp:445-473 | which stack the parser is given, for every combination of refusals, failures and exceptions; a block that is left ends what one agreement covers |
| Signals.ProcessLine | src/deska/cli/UserInterface.cpp:634-680 | one line through parser, handler and main loop ends on the specified stack; after an exception on the old one |
| Signals.AppliedAlike | src/deska/cli/ParserSignals.cpp:458-466 | after any number of applied signals the handler's stack equals the parser's at that point, up to generated names |
| Signals.PushedStays | src/deska/cli/ParserSignals.cpp:47-113 | what an applied signal pushes stays as it is until it is left: the item it names, with the name the server generated where it has none |
| Signals.AcceptedLine | src/deska/cli/ParserSignals.cpp:445-473 | all applied: the parser's own stack up to generated names; a refusal, or a line that shows, deletes or renames and does not complete: the stack from before the line; a line that is not accepted: the stack the parser left |
| Database.FilterOnNameSelects | src/deska/cli/DbInteraction.cpp:896-910 | the filter on a name matches an object, or through the join its children, if and only if the names are equal at every level |
| Database.Instances | src/deska/cli/DbInteraction.cpp:268-277 | the server's instances: every matching object once |
| RelationTables.LoadRelations | src/deska/cli/DbInteraction.cpp:38-66 | every table says exactly what the server reported for each kind, the two tables for embedding are inverse to each other, and the kinds embedded nowhere are exactly the rest |
| Expansion.FilterFreeLists | src/deska/cli/DbInteraction.cpp:700-702 | a stack without filters stands for the one object on its path, existing or not, so the shortcut agrees with reading item by item |
| Expansion.FilterItemLists | src/deska/cli/DbInteraction.cpp:732-766 | the filter built for a filter item selects exactly the children of the current objects that satisfy the item's own filter |
| Expansion.ObjectItemLists | src/deska/cli/DbInteraction.cpp:768-774 | stepping into every current object yields each denoted object once |
| Expansion.DenotedFits | src/deska/cli/DbInteraction.cpp:896-910 | every denoted object with a full name has as many parts as its kind is deep, so the assertions of filterOnName hold |
| DbInteractions.DbInteraction.ClearCache | src/deska/cli/DbInteraction.cpp:823-826 | restores the invariant after a refused modification |
| DbInteractions.DbInteraction.AttachChangeset | src/deska/cli/DbInteraction.cpp:588-602 | opening or resuming a changeset starts with an empty cache |
| DbInteractions.DbInteraction.LeaveChangeset | src/deska/cli/DbInteraction.cpp:606-638 | leaving one ends caching before the view changes, even if the server refuses |
| DbInteractions.DbInteraction.FreezeView | src/deska/cli/DbInteraction.cpp:805-810 | caching starts empty |
| DbInteractions.DbInteraction.UnFreezeView | src/deska/cli/DbInteraction.cpp:814-819 | caching ends |
| DbInteractions.DbInteraction.ObjectExists | src/deska/cli/DbInteraction.cpp:403-423 | for a named object the answer is the server's; the cache gains at most this answer |
| DbInteractions.DbInteraction.ContextExists | src/deska/cli/DbInteraction.cpp:427-462 | whether everything a context stack stands for exists, which is denied for a stack with a nameless object |
| DbInteractions.DbInteraction.KindInstances | src/deska/cli/DbInteraction.cpp:268-277 | every object of the kind once |
| DbInteractions.DbInteraction.ExpandContextStack | src/deska/cli/DbInteraction.cpp:693-779 | exactly the denoted objects without duplicates; fails if and only if a name is missing below an item that still has objects to work on |
| DbInteractions.DbInteraction.StepFilter | src/deska/cli/DbInteraction.cpp:737-750 | the And of the Or over all current objects and the item's own filter |
| DbInteractions.DbInteraction.FindNamed | src/deska/cli/DbInteraction.cpp:836-842 | the query finds the object if and only if it exists, never a second one, as the code asserts |
| DbInteractions.DbInteraction.ConnectedObjectsTransitivelyRec | src/deska/cli/DbInteraction.cpp:830-866 | ends on cyclic relations; the list grows by reachable objects whose neighbours are all listed too |
| DbInteractions.DbInteraction.ConnectedObjectsTransitively | src/deska/cli/DbInteraction.cpp:506-522 | exactly the existing objects reachable through contains and containable, without duplicates and without the object itself |
| DbInteractions.DbInteraction.ConnectedInContext | src/deska/cli/DbInteraction.cpp:526-538 | exactly what is connected to some denoted object, once each |
| DbInteractions.DbInteraction.AllNestedObjectsTransitivelyRec | src/deska/cli/DbInteraction.cpp:870-885 | the same for everything nested inside |
| DbInteractions.DbInteraction.AllNestedObjectsTransitively | src/deska/cli/DbInteraction.cpp:374-383 | exactly the strict descendants, once each |
| DbInteractions.DbInteraction.AllNestedInContext | src/deska/cli/DbInteraction.cpp:387-399 | exactly what is nested in any denoted object, once each |
| DbInteractions.DbInteraction.ApplyBatchedChanges | src/deska/cli/DbInteraction.cpp:155-252 | the server refuses a batch if and only if it is unwilling or a change is not acceptable behind the ones in front of it, and applies all changes or none |
| DbInteractions.DbInteraction.DeleteObjects | src/deska/cli/DbInteraction.cpp:154-165 | the listed objects are gone, nothing else is, and the cache stays sound; a batch of named objects is refused exactly if the server is unwilling, and changes nothing then |
| DbInteractions.DbInteraction.DeleteObject | src/deska/cli/DbInteraction.cpp:145-150 | exactly the denoted objects are gone, and refused only by an unwilling server |
| DbInteractions.DbInteraction.CreateObject | src/deska/cli/DbInteraction.cpp:71-125 | afterwards exactly the wanted objects exist in addition; without a name exactly one object was added, under the returned name; one named object is created if and only if the server is willing and its objects allow it |
| DbInteractions.DbInteraction.RestoreDeletedObject | src/deska/cli/DbInteraction.cpp:130-141 | the denoted objects exist again, one request each; refused midway it has added only denoted objects, and the cache is sound |
| DbInteractions.DbInteraction.RestoreWholePath | src/deska/cli/UserInterface.cpp:109-115 | called with a single item that holds the whole path, as the user interface does, it restores exactly the object of that path, and fails exactly if that is missing and the server does not take it |
| DbInteractions.DbInteraction.RenameObjects | src/deska/cli/DbInteraction.cpp:178-190 | the server's objects after the batch, which is refused exactly if the server is unwilling or a renaming is not acceptable; the cache stays sound if nothing was embedded in the renamed objects |
| Existence.CreationSoundIffNamed | src/deska/cli/DbInteraction.cpp:94-100 | a creation keeps every sound cache sound if and only if the name was given |
| Existence.RenameSoundIffNothingNested | src/deska/cli/DbInteraction.cpp:178-190 | a renaming keeps every sound cache sound if and only if nothing existing is embedded in the object, at any depth |
| Existence.RenamingsKeepSound | src/deska/cli/DbInteraction.cpp:178-190 | the same for a whole batch of renamings |
| CacheRuns.Session.Run | src/deska/cli/DbInteraction.cpp:403-423 | over every run of lookups, enumerations, expansions, named creations, restorations, deletions, renamings of objects with nothing inside, view changes and commits of others: every step is carried out or refused, every lookup is answered, and about a named object with what the server showed at that moment |
| Reachability.SearchIsExact | src/deska/cli/DbInteraction.cpp:830-885 | a search that began with an empty list ends with exactly the reachable objects |
| Reachability.VisitNeighbour | src/deska/cli/DbInteraction.cpp:838-847 | what one recursive call contributes to the search |
| Reachability.NestedApart | src/deska/cli/DbInteraction.cpp:387-399 | objects of one kind share nothing nested and are not nested in one another |
| Functions.UserInterface.ApplyCreateObject | src/deska/cli/UserInterface.cpp:92-137 | for a completely named object it succeeds exactly if the server takes it, or by restoring what this changeset has deleted if the user agrees; the object was missing and exists then; otherwise nothing changes |
| Functions.UserInterface.ApplyCategoryEntered | src/deska/cli/UserInterface.cpp:141-181 | entering an existing object changes nothing; a missing one is created exactly if the server takes it, or restored if the user agrees, or nothing changes |
| Functions.UserInterface.Restore | src/deska/cli/UserInterface.cpp:104-125 | restores exactly the object of the path if the stack has no filters and the user wants it or is not asked, and never otherwise |
| UserEffects.Apply | src/deska/cli/UserInterface.cpp:92-368 | entering, creating, deleting and renaming one named object in non-interactive mode leave exactly the objects, and succeed exactly when, executing a script says, where the server refuses exactly if it is unwilling |
| Functions.UserInterface.ApplyFunctionDelete | src/deska/cli/UserInterface.cpp:332-348 | removes exactly the denoted objects and everything inside, and keeps every embedded object's parent; the user declines if and only if the stack can be read, something is inside, nothing is decided without asking and the answer is no; then nothing changes; refused only by an unwilling server |
| Functions.DeletionBatch | src/deska/cli/UserInterface.cpp:339-342 | the batch names no object twice, however many objects the filters match |
| Functions.DeletionKeepsParents | src/deska/cli/UserInterface.cpp:332-348 | no embedded object loses its parent |
| Selections.SelectionDeleted | src/deska/cli/UserInterface.cpp:332-348 | if the deletion that "delete kind where (filter)" or "delete all kind" asks for is carried out, inside named blocks or at the top level, an object goes if and only if it is of the kind, there, satisfies the filter, or is inside one that does |
| Selections.OnlySelectedGo | src/deska/cli/UserInterface.cpp:332-348 | under any stack, filters included, nothing goes that does not satisfy the filter and is not inside something that does |
| Functions.UserInterface.ApplyFunctionRename | src/deska/cli/UserInterface.cpp:352-368 | the batch holds exactly the denoted objects, with everything connected to them if the user agrees, none twice; it is refused only by an unwilling server or because a renaming is not acceptable; the cache stays sound if nothing is nested in them |
| KindFilter.LogFilterParser.ConstructKindFilter | src/deska/cli/CliCommands_Log.cpp:287-366 | the filter or refusal for every operator, kind and name, and the error flag, with the meaning that the lemmas below give them |
| KindFilter.FilterComparesNames | src/deska/cli/CliCommands_Log.cpp:296-361 | for kinds at every level the filter selects an object if and only if the operator holds between the names, ordered by parent text and then local name |
| KindFilter.NamesTotallyOrdered | src/deska/cli/CliCommands_Log.cpp:319-361 | that order is total and strict on the names of a kind |
| KindFilter.OperatorsAgree | src/deska/cli/CliCommands_Log.cpp:296-361 | for kinds at every level NE is not EQ, GE is not LT, LE is not GT, and LE is LT or EQ |
| KindFilter.ComparesNamesIffColumnFits | src/deska/cli/CliCommands_Log.cpp:296-325 | the filter compares names if and only if the kind is not embedded or its reference to the parent is called like the parent's kind |
| KindFilter.LocalNames | src/deska/cli/CliCommands_Log.cpp:296-297 | a name of one part is compared with the last part of the names, for a kind at any depth |
| KindFilter.Refusals | src/deska/cli/CliCommands_Log.cpp:287-366 | unreadable texts, misfits of name and kind, and operators that do not order are refused, each in its own way, and nothing else is |
| DiffPrinter.PrintDiff | src/deska/cli/UserInterfaceIO.cpp:775-798 | the pass over the sorted list computes the specified lines, or the failed assertion |
| DiffPrinter.DiffLessIsStrictOrder | src/deska/cli/UserInterfaceIO.cpp:166-181 | the comparator is a strict weak order |
| DiffLaws.CleanIffValid | src/deska/cli/UserInterfaceIO.cpp:185-267 | however equal elements are sorted, the assertion never fails and the depth is 0 between objects and at the end, if and only if every object comes to its name at most once and has attributes beside a deletion only if it came to the name again |
| DiffLaws.ValidDiffPrinted | src/deska/cli/UserInterfaceIO.cpp:185-267 | a valid diff is printed as flat blocks, each closed by one end with the mark of its header, headers and ends unindented and attributes indented once |
| DiffReading.ReadersLearn | src/deska/cli/UserInterfaceIO.cpp:185-267 | who reads the printed lines of a valid diff from top to bottom learns every object that came, went or was renamed and every value lost or got, on the right object, and nothing else |
| DiffReading.ObjectsInTurn | src/deska/cli/UserInterfaceIO.cpp:166-181 | objects are printed by kind and name, a renamed one under its new name, the deletion of a namesake first |
| Rebase.LessIsStrictOrder | src/deska/cli/CliCommands_DiffRebase.cpp:66-140 | the four-level comparator is a strict weak order |
| Rebase.SortsInTurn | src/deska/cli/CliCommands_DiffRebase.cpp:66-140 | deletions come before renamings, creations and attributes, each sort by kind, name and then new name or attribute |
| Rebase.ClearChildDeletions | src/deska/cli/CliCommands_DiffRebase.cpp:848-866 | erases exactly the deletions nested directly in what the first modification deletes |
| RebaseDeletions.ClearedInside | src/deska/cli/CliCommands_DiffRebase.cpp:756-773 | it takes out the deletion of what is embedded directly in the object the first modification deletes |
| RebaseLimits.ClearedIffBesideFirst | src/deska/cli/CliCommands_DiffRebase.cpp:848-866 | no nested deletion is left if and only if, wherever a parent's deletion is listed beside the child's, the parent is the first modification's object or a direct child of it |
| RebaseLimits.SecondParentIgnored | src/deska/cli/CliCommands_DiffRebase.cpp:848-866 | a list on which a nested deletion stays |
| RebaseLimits.NestedDeletionFails | src/deska/cli/CliCommands_DiffRebase.cpp:1116-1145 | a nested deletion that stays behind its outer one, with only deletions between them, makes every rebase fail, since the object is gone already |
| RebaseLimits.CommentBreaks | src/deska/cli/CliCommands_DiffRebase.cpp:508-519 | we changed nothing and the newer revision set a value with a line break: nothing disturbs the plan, but the comment about the value becomes two lines, the second is refused, and the rebase fails |
| RebaseLimits.TwoEmbeddedBlocksFail | src/deska/cli/CliCommands_DiffRebase.cpp:1116-1145 | whenever attributes of two embedded objects are changed, by whichever side, the unedited script fails, whatever exists |
| RebaseLimits.HostComesBack | src/deska/cli/UserInterface.cpp:141-153 | we renamed host a to b, the newer revision sets its cpu: the unedited script goes through and leaves both hosts |
| RebaseLimits.BlockClosedIffTopLevel | src/deska/cli/Parser_p.cpp:411-434 | a header enters every level of its name, and the one "end" of the script closes the block if and only if the kind is embedded nowhere |
| RebaseLimits.ParsedBlockClosedIffTopLevel | src/deska/cli/Parser_p.cpp:411-434 | the same in the parser alone, names with a missing last part included, whatever exists |
| RebaseScript.WriteScript | src/deska/cli/CliCommands_DiffRebase.cpp:1019-1087 | the three merge loops write the text of the specified script, and "Last modification not found" is never thrown |
| RebaseScript.EraseReadonly | src/deska/cli/CliCommands_DiffRebase.cpp:969-986 | erases exactly the attributes the database maintains itself |
| RebaseScript.PrepareScript | src/deska/cli/CliCommands_DiffRebase.cpp:958-1087 | from the two differences to the text of the script; what it collects, keeps and prints is stated by RebaseScript.DeletionsCollected, RebaseLaws.PreparedMembers and RebaseDeletions.HeadersOpened |
| RebaseScript.DeletionsCollected | src/deska/cli/CliCommands_DiffRebase.cpp:958-965 | exactly the objects that our difference deletes are collected, those included whose deletion is cleared afterwards |
| RebaseLaws.PreparedMembers | src/deska/cli/CliCommands_DiffRebase.cpp:967-989 | what is merged holds a modification if and only if the difference does, the database does not maintain its attribute itself, and it is no deletion nested in what the first one deletes |
| RebaseDeletions.MergeSources | src/deska/cli/CliCommands_DiffRebase.cpp:1026-1063 | what both sides hold is merged once as shared, everything else under the side it comes from |
| RebaseDeletions.HeadersOpened | src/deska/cli/CliCommands_DiffRebase.cpp:506-600 | from the raw differences: a header is executed for an object if and only if one side changes an attribute of it that the database does not maintain itself and we do not delete it |
| RebaseDeletions.NoHeaderForDeleted | src/deska/cli/CliCommands_DiffRebase.cpp:958-965 | no header is executed for an object that our difference deletes |
| RebaseDeletions.StepsOfOurs | src/deska/cli/CliCommands_DiffRebase.cpp:1026-1063 | the other steps are exactly our modifications that are kept and that the newer revision does not keep as well |
| RebaseDeletions.DeletedComesBack | src/deska/cli/CliCommands_DiffRebase.cpp:958-1146 | after a rebase that goes through, an object that we delete and the newer revision does not is there if we create it or something inside it, or a side changes an attribute of something inside it that we do not delete; if none of these holds and we rename nothing onto it or around it, neither it nor anything inside it is there |
| RebaseDeletions.HeaderInsideRestores | src/deska/cli/UserInterface.cpp:141-153 | whenever we delete an object and the newer revision changes an attribute of something inside it that we do not delete, at any depth, the unedited script goes through and the header creates the deleted object again |
| RebaseDeletions.StepKeepsGone | src/deska/cli/UserInterface.cpp:92-368 | no other step brings back an object that is gone with everything inside |
| RebaseNotes.TheirsTold | src/deska/cli/CliCommands_DiffRebase.cpp:478-655 | every modification of the newer revision is told in a comment, with both values of an attribute, and with whether we make it as well |
| RebaseNotes.OldValuesTold | src/deska/cli/CliCommands_DiffRebase.cpp:377-390 | beside each attribute of ours stands its old value |
| RebaseNotes.HeaderPrinted | src/deska/cli/CliCommands_DiffRebase.cpp:377-716 | each block has its header in front, a comment exactly for attributes that only the newer revision changes on objects we delete |
| ScriptFile.ReadBackIffUnbroken | src/deska/cli/CliCommands_DiffRebase.cpp:1116-1121 | for any script, the lines getline finds in its text are the lines that were written if and only if none of them holds a line break |
| ScriptFile.EditedText | src/deska/cli/CliCommands_DiffRebase.cpp:1116-1121 | of whatever text the user saves every line that ends with a line break is read, and what stands behind the last is not |
| LineBreaks.ReadBackIffSingle | src/deska/cli/CliCommands_DiffRebase.cpp:379-716 | for the script of any two lists, the lines read back are the lines written if and only if no kind, name, attribute, value or old value of either side is printed with a line break |
| LineBreaks.StringUnbroken | src/deska/cli/CliObjects.cpp:136-159 | quoting neither adds nor removes line breaks |
| Lexer.LexWords | src/deska/cli/CliCommands_DiffRebase.cpp:348-401 | printed words are read as they were printed, unless one but the last is an attribute of the open block |
| Lexer.LexValue | src/deska/cli/Parser_p_AttributesSettingParser.cpp:59-66 | an attribute and the text that the rule of its type takes as a whole are read as two tokens |
| Lexer.ValueTaken | src/deska/cli/PredefinedRules.cpp:73-116 | the rule of its type takes a printed readable value as a whole |
| RebaseLaws.MergeKeepsOurs | src/deska/cli/CliCommands_DiffRebase.cpp:1026-1063 | the executed part of the merge is our modifications without the shared ones, in sorted order |
| RebaseLaws.MergeAscends | src/deska/cli/CliCommands_DiffRebase.cpp:1026-1063 | the merged types ascend, so blocks of attributes come last |
| RebaseLaws.RunPrinted | src/deska/cli/CliCommands_DiffRebase.cpp:1116-1145 | the same from any point of the printed merge, inside or behind the block of the last modification |
| RebaseLaws.UneditedScript | src/deska/cli/CliCommands_DiffRebase.cpp:1112-1146 | on whatever objects the server holds, the text of the unedited script, read back and executed, does the steps of the plan one after the other, up to the first that fails: our modifications that are not in the newer revision too, in sorted order, and in front of attributes the header of their object; it goes through if and only if every step does and no block is opened behind the block of an embedded object |
| RebaseLaws.PreparedSorted | src/deska/cli/CliCommands_DiffRebase.cpp:967-989 | what is merged is strictly sorted and holds exactly the modifications that survive clearing |
| RebaseLaws.RebaseRunsPlan | src/deska/cli/CliCommands_DiffRebase.cpp:958-1146 | the same from the raw differences to the executed file |
| Plans.ReachedIff | src/deska/cli/Parser_p.cpp:377-434 | a plan is reached to its end if and only if no header stands behind the block of an embedded object |
| Blocks.RunHeader | src/deska/cli/Parser_p.cpp:364-435 | the printed header opens the path of its object on an empty stack, and is refused where the block of an embedded object is still open |
| Blocks.RunOurAttribute | src/deska/cli/CliCommands_DiffRebase.cpp:377-390 | the printed comment and command of an attribute, in its block, set or remove exactly the value that was printed |
| RebaseOutcome.PlanExact | src/deska/cli/UserInterface.cpp:92-368 | a plan goes through with exactly the modifications it is meant to make if and only if every step finds its levels in place, nothing inside what it deletes, no embedded object to rename, and the place free for what it creates or renames |
| RebaseOutcome.ExecutesExact | src/deska/cli/CliCommands_DiffRebase.cpp:1116-1145 | line by line, the same if and only if in addition no block is opened behind the block of an embedded object |
| RebaseOutcome.PlanMeansCommands | src/deska/cli/CliCommands_DiffRebase.cpp:1026-1063 | the modifications the plan is meant to make are the executed part of the merge |
| RebaseOutcome.LevelsGrow | src/deska/cli/UserInterface.cpp:141-153 | entering an object changes nothing if it and everything it is embedded in exist, and otherwise makes at least one more modification |
| RebaseOutcome.NewNameText | src/deska/cli/DbInteraction.cpp:178-190 | the new name in a rename line is the one the server is asked for if and only if the object is not embedded, since only the last part is replaced |
| RebaseOutcome.DeletionsUndisturbed | src/deska/cli/UserInterface.cpp:332-348 | on objects whose parents exist, a list of deletions is undisturbed if and only if every object exists and everything inside it is deleted before it |
| RebaseOutcome.CreationsUndisturbed | src/deska/cli/UserInterface.cpp:92-137 | there a list of creations is undisturbed if and only if every object is new and what it is embedded in exists or is created before it |
| RebaseOutcome.BlocksUndisturbed | src/deska/cli/CliCommands_DiffRebase.cpp:1116-1145 | steps of blocks change no objects, so all of them are judged by the objects in front of the first block |
| RebaseOutcome.UndisturbedConcat | src/deska/cli/CliCommands_DiffRebase.cpp:1116-1145 | the condition splits between two parts of a plan, the second judged by the objects after the first |
| RebaseOutcome.PresentIfParentsExist | src/deska/cli/UserInterface.cpp:141-153 | where parents exist, finding all levels in place means that the object itself exists |
| RebaseExtras.RebasePerformsOurs | src/deska/cli/CliCommands_DiffRebase.cpp:958-1146 | from the raw differences: the text of the unedited script goes through with our modifications and no others if and only if no step of the plan is disturbed and no block is opened behind the block of an embedded object |
| RebaseExtras.RebasePerformsListed | src/deska/cli/CliCommands_DiffRebase.cpp:958-1146 | a rebase that goes through makes only modifications of our difference if and only if, step by step on the objects the plan leaves, we also create every level that is missing and also delete everything inside what we delete; the deletions that clearing took out count |
| RebaseExtras.PlanOnlyListed | src/deska/cli/UserInterface.cpp:141-343 | the same for any plan and any set of listed modifications |
| RebaseExtras.StepObjects | src/deska/cli/UserInterface.cpp:92-368 | the objects after a step that goes through, from the objects before it alone |
| RebaseExtras.InsideIsNested | src/deska/cli/UserInterface.cpp:332-343 | what a deletion takes along is what the search through the nested kinds finds |
| RebaseExtras.RenamedComesBack | src/deska/cli/UserInterface.cpp:141-153 | whenever we rename an object, at any depth, of which the newer revision changes an attribute, the header of the block creates the object anew under its old name |
| RebaseReplay.LineRuns | src/deska/cli/ParserSignals.cpp:445-473 | an accepted line whose signals all go through ends on the parser's stack with their effects on the server one after the other |
| RebaseReplay.RunConcat | src/deska/cli/CliCommands_DiffRebase.cpp:1116-1145 | executing two parts of a script in turn |
| RebaseSteps.EnterLevels | src/deska/cli/UserInterface.cpp:141-153 | entering a path level by level creates exactly the levels that are missing, and never fails |
| RebaseSteps.DeleteRuns | src/deska/cli/UserInterface.cpp:332-348 | a delete line removes the object and everything inside, and fails exactly if it does not exist |
| RebaseSteps.RenameRuns | src/deska/cli/UserInterface.cpp:352-368 | a rename line enters the levels and renames, and fails exactly if the object is missing or the new name is not a free identifier |
| RebaseSteps.CreateRuns | src/deska/cli/UserInterface.cpp:92-137 | a create line creates the object and its missing outer levels, and fails exactly if it exists |
| RebaseSteps.OpenRuns | src/deska/cli/UserInterface.cpp:141-153 | a header enters the path of its object, creating what is missing |
| RebaseSteps.SetRuns | src/deska/cli/UserInterface.cpp:184-219 | the tokens of an attribute and its value, in the block of its object, set or remove that value, and fail exactly if the object does not exist |
| ScriptLines.CreateLine | src/deska/cli/Parser_p_FunctionWordsParser.cpp:38-41 | a create line for an object at any depth is accepted, enters the outer levels, sends the creation, leaves every level and ends on an empty stack |
| ScriptLines.DeleteLine | src/deska/cli/Parser_p.cpp:826-842 | a delete line for an object at any depth is accepted if and only if the object exists, and then enters every level, sends the deletion and leaves every level |
| ScriptLines.RenameLine | src/deska/cli/Parser_p.cpp:862-890 | a rename line for an object at any depth is accepted if and only if the object exists, and then enters every level, sends the renaming to the given name and leaves every level |
| ScriptLines.SetLine | src/deska/cli/Parser_p_AttributesSettingParser.cpp:59-66 | a setting line on any stack inside the block sends the value that is read from its text |
| ScriptLines.RemoveLine | src/deska/cli/Parser_p_AttributeRemovalsParser.cpp:55-60 | a removing line on any stack inside the block sends the removal |
| ScriptLines.HeaderRefused | src/deska/cli/Parser_p.cpp:377-381 | a header with the whole name is refused inside any block in which its kind is no keyword or attribute |
| ScriptLines.UnknownWord | src/deska/cli/Parser_p.cpp:792-860 | so is a line whose first word means nothing in the open block |
| Changesets.Session.Start | src/deska/cli/CliCommands.cpp:229-246 | a fresh changeset on the head is attached, on both sides, exactly if there was none |
| Changesets.Session.Resume | src/deska/cli/CliCommands.cpp:265-333 | attaches the changeset, or leaves everything alone |
| Changesets.Session.Commit | src/deska/cli/CliCommands.cpp:352-385 | the changeset becomes the new head, or everything stays |
| Changesets.Session.Detach | src/deska/cli/CliCommands.cpp:404-427 | detached on both sides, still pending |
| Changesets.Session.Abort | src/deska/cli/CliCommands.cpp:446-465 | gone on both sides, if confirmed |
| Changesets.Session.ExecuteScript | src/deska/cli/CliCommands_DiffRebase.cpp:1112-1147 | the new changeset holds exactly what the lines did up to and including the first that fails; all others are untouched |
| Changesets.Session.Rebase | src/deska/cli/CliCommands_DiffRebase.cpp:888-1188 | on every way out exactly one of the two changesets is pending and attached on both sides: the new one with what the script did if nothing failed, otherwise the old one with its content |
| RebaseSession.ExecutedRun | src/deska/cli/CliCommands_DiffRebase.cpp:1112-1147 | for any lines and however they are taken apart, what the executed lines changed in turn is what the run changed, and all of them succeed if and only if the run goes through |
| RebaseSession.SmoothIffUndisturbed | src/deska/cli/CliCommands_DiffRebase.cpp:888-1188 | the command goes through with exactly our modifications if and only if nothing else fails, no step of the plan is disturbed on the objects of the head, and no block is opened behind the block of an embedded object |
| RebaseSession.RebaseEdited | src/deska/cli/CliCommands_DiffRebase.cpp:888-1188 | with whatever text the user saves, and however its lines are taken apart, the new changeset holds what its run did and replaces the old one, or the old one stays with its content |
| RebaseSession.RebaseUnedited | src/deska/cli/CliCommands_DiffRebase.cpp:888-1188 | from the two differences to the changeset: the new one is attached and holds exactly our modifications that are not in the newer revision too if and only if nothing else fails and that condition holds |
| Changesets.Execute | src/deska/cli/CliCommands.cpp:229-465 | every command of a sequence does what it should, one after the other, and in between the user interface and the server agree on the attached changeset |
| Changesets.OthersUntouched | src/deska/cli/CliCommands.cpp:229-465 | over any such run a changeset that is never attached stays exactly as it was, and an id that has been used up never returns |
| Changesets.HeadMovesByCommits | src/deska/cli/CliCommands.cpp:352-385 | over any such run the head moves by at most one for each commit, and no changeset is based on a revision that does not exist |

## Left out

- Boost.Spirit and its iterators: the parser works on tokens, an attribute value is one token, and a rule that fails in
  the middle gives everything back; the attribute of the string rule, which is not given back, is modelled.
- Wording and ranking of parse errors, the suggestions of tab completion, prompts, help, pager, editor, temporary files.
- The server, its connection and command batching: a set of objects and a filter semantics stand for it. A filter on a
  kind that is neither the queried one nor its embedding kind, and on attributes other than the name and the reference
  to the parent, is decided by an arbitrary relation.
- KindFilter.FilterComparesNames: reads every operator on the reference to the parent as a comparison of name texts, as
  the client means it; the server's own translation of such references to identifiers
  (src/deska/server/db/filter.py:105-115) is not part of this model, and for the ordering operators it is not checked
  that it agrees.
- Existence.Acceptable: is what the server's objects decide, beside its willingness, which is a field that each request
  settles anew; it demands no order among the deletions of one batch: whether deleting an outer object before the inner ones is accepted is up to the server.
- DbInteractions.DbInteraction.AttachChangeset: when the server refuses, stableView stays set without a stable view, as
  in the code; runs end there.
- DbInteractions.DbInteraction.RestoreDeletedObject: takes a stack with one item for each level; the stack the callers pass,
  with the whole path in one item, is that of DbInteractions.DbInteraction.RestoreWholePath.
- DbInteractions.DbInteraction.RenameObjects: states the server's new objects as the effect of the batch in its order.
- CacheRuns.Session.Run: skips renamings of objects with something nested in them and does not create nameless objects;
  for both the cache can go wrong, as Existence.RenameSoundIffNothingNested and Existence.CreationSoundIffNamed show.
- The variants of allNestedObjects and containedObjects that are not transitive: they repeat queries that are modelled.
- RebaseLaws.UneditedScript: demands of what is merged that nothing is printed with a line break
  (LineBreaks.ReadBackIffSingle, and RebaseLimits.CommentBreaks for what happens otherwise), that our values are readable
  as Values.ValueRoundTrip says, that kinds and attributes are identifiers and names whole ones, that we change no
  attribute of an object we delete, and that each key occurs once. Where a block of an embedded object is opened it also
  demands that no kind is called like a keyword or like an attribute of the embedding kind: there the next header would
  set that attribute.
- RebaseDeletions.DeletedComesBack: says nothing about a deleted object that is only the target of one of our renamings,
  or inside such a target: whether it is there then depends on what was inside the renamed object.
- PhraseLines.SelectionLine: like PhraseLines.NewLine and PhraseLines.IdentifierLine it asks that no kind and no attribute
  goes by one of the grammar's own words. The results about lines of any length only ask that nothing that is tried
  earlier, such as an attribute of the same name, takes the words of a phrase (Phrases.Unclaimed).
- Lexer.Lex: takes lines apart as they are printed; the value of a type other than strings and identifier sets reaches to
  the end of the line, and filters are not read. What holds for edited files holds for every way to take lines apart.
- RebaseReplay.Run: a server that refuses what the objects allow, for reasons of its own, is outside the results about
  whole scripts; restoring an object that was deleted in the same changeset counts as creating it; values are not checked
  against the objects, only their existence is. What signals with filters, nameless objects or attributes of contained
  kinds do is a parameter.
- StackRuns.ReachableNested: lines with filters or "new" are outside this result, since a stack with filters has no path;
  StackRuns.ReachableChained is what holds for them.
- Values of types other than strings and identifier sets: they are kept as text.
- ParserTables.BuildTables: the tables of the attributes are parameters.
- Changesets.Session.Rebase: exceptions the code does not catch, a crash of the client, and the editing of the script
  are not modelled. The lines' results are parameters there; RebaseSession.RebaseEdited takes them from the run of a script.
- Backup and Restore: they sort by type only, so the outcome depends on an order the code does not fix.
- Python bindings, configuration, conversion scripts and the exception classes.
