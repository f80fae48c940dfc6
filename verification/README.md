# NetWatchdog: models and proofs

This project models the parts of NetWatchdog that decide something, and proves what they promise.

* **Disconnect detection** (`Protocol`, `Tokens`, `Alternation`, `Rounds`, `Heartbeats`, `Losses`, `Detection`,
  `Schedules`, `Race`, `FalseAlarms`, `Reconnection`, `Server`, `Client`).
  The server's receive thread and monitor thread, the clients and a network that loses and
  reorders messages are one labelled transition system. Each access of a server thread to shared
  data is a step of its own, but for the check of a new message, which reads a list and writes the log; that
  the two can be taken apart is proved of its handler. So a run is any interleaving. `Server` and `Client` hold
  the handler bodies as methods of objects; each method is proved to take exactly the steps of the transition
  system, whatever the others do between any two of them, and to lead to the state that its own steps and the
  enabled ones of the others lead to; so the results about all runs are results
  about the handlers.
* **Popper's modifier scheduler** (`PopperOrder`, `PopperSorter`, `PopperPhases`, `PopperListing`,
  `PopperMerge`, `PopperFlip`, `PopperChecks`, `PopperUpdate`). Merging, the depth-first topological sort and
  what it makes of the order of the list, the stable sort by phase, the placement search and the restartable
  update loop, with geometry as an oracle.
* **Text substitution and page dispatch** (`TextReplace`, `Placeholders`, `WebTemplate`,
  `StringHash`, `Dashboard`, `DashboardPage`). The in-place replacement, what several of them in a
  row amount to, the template writer, the 32-bit hash and the dashboard handler.
* **Users, configuration, wire format** (`Users`, `Settings`, `Config`, `ConfigFile`, `Framing`, `Router`).
  Users as documents that are updated by difference; options with their sources and the
  file that the first start creates; the four message types as JSON in one or two frames, and
  what the server's ROUTER socket makes of the frames of two threads.

`Sequences` holds a few facts about sequences, `JsonValues` the JSON values. `dafny verify dfyconfig.toml` verifies everything.

## What the proofs found

* A *hazard* (`Alternation.Hazard`) is a step of one of three kinds: a new identity is checked while the
  database is down, an identity is checked against a snapshot that is already harvested, or the
  harvest falls between check and push. Between rounds, the log of every identity alternates and agrees
  with the server's record exactly if no step so far was a hazard; in the middle of a round it may agree for
  the last time. A hazard is never repaired. `Race` has a run without any lost message that logs
  a live client as gone.
* Without any hazard a round never misses a client that is lost, in the sense that no continuation whatever
  is heard from it again. But it may report others: `FalseAlarms` has a round in which nobody
  is lost and the only client is reported, because the wait for all but one arrival does not wait for it,
  and one in which a newcomer makes up the count and a live client is reported along with
  the stopped one. `Detection` says exactly when this does not happen.
* Popper's `order` keeps a list as it is exactly if no modifier depends on one that is listed after it. In any
  list every modifier comes along with the first one that reaches it.
* With an empty snapshot the threshold of the wait wraps around, and the wait never ends by the count.
* `UpdateUser` never changes the name of a user. Renaming to a free name does nothing and reports failure;
  renaming to a taken one compares with the wrong document.
* The first start with a word in `MONGO_PORT` saves 0 as the port, and with a number out of range the
  nearer bound. A text from the environment is cut at its first space.
* Texts that differ inside a window of five characters share a `StringHash` exactly if the polynomials of the
  windows are equal. So one wrong character in a page name is always noticed, and two adjacent ones are
  not exactly if the second makes up for the first: the query `dMients` selects the clients
  page. An `&` ahead of the `?` makes the whole rest of the target the name.
* The two threads of the server send on one ROUTER socket without a lock, two frames a message. Whichever
  clients can be routed to, exactly the messages for these clients are delivered, each to its own client,
  if and only if none of them is begun inside another message and none is interrupted. Otherwise a client may read a
  frame that ends it, and with a client that has gone the message for another one may vanish or
  reach a third, without any failure.
* A client that stops and comes back under its saved identity before the server has noticed is registered
  and logged twice. Every identity keeps at most one token exactly if no client comes back so early.

Where the repository's documentation says that values from the command line or the environment are not
saved in `config.toml`, the code agrees for the values it takes; an environment text that it rejects can
leave its trace as said above.

## Model

| member | source | states |
|---|---|---|
| Tokens.TokenStep | source/server/server.cpp:89-105 | No step of the server, a client or the network creates a token of an identity, except its first announcement. |
| Tokens.AtMostOneToken | source/server/server.cpp:89-184 | In every run each identity has at most one token among connected list, messages in flight or in handling, heartbeats in flight, to send or being answered; so the connected list has no duplicates. |
| Tokens.TokenInvRun | source/server/server.cpp:174-184 | The invariant behind it holds in every reachable state. |
| Reconnection.OneTokenIffCleanReturns | source/client/client.cpp:48-51 | With clients that come back: at most one token throughout the run iff no client comes back while a token of its former session is left. |
| Reconnection.EarlyReturnDoubles | source/server/server.cpp:95-99 | A client that stops and comes back before a round is in the connected list and in the log twice. |
| Client.NetWatchdogClient.RunSession | source/client/client.cpp:46-67 | A session takes exactly the client's steps (announcement, handshake, one step pair per heartbeat, end), with any steps of the others between any two of them; at each call of `RecvMessage` what is offered arrives iff it is on its way, there is one iteration for each offer after an accepted reply and none otherwise, and of the others' steps exactly the enabled ones happen. |
| Client.NetWatchdogClient.HeartbeatLoop | source/client/client.cpp:55-61 | One iteration for each offer; iteration k receives what is offered in it iff that is on its way then, and the final state is the one that follows from this. |
| Client.NetWatchdogClient.Recv | source/common/communication.h:10-26 | A reply or a heartbeat arrives iff it is offered and on its way to this client. |
| Client.NetWatchdogClient.Listen | source/client/client.cpp:55-61 | One loop iteration answers the heartbeat iff one is offered and on its way, with any steps of the others between receiving and sending, discards a reply and does nothing on a timeout. |
| Client.OneMessagePerHeartbeat | source/client/client.cpp:48-61 | A session sends one message for its announcement and one for each heartbeat received after the handshake, none without a handshake. |
| Server.NetWatchdogServer.HandleClientConnected | source/server/server.cpp:139-162 | Reading the list and writing the log, with any steps of the others in between, is the one check step: taken at the read if the identity is in the list, at the write if not; of the others' steps exactly the enabled ones happen. |
| Server.StaysOutOfPrevious | source/server/server.cpp:147-160 | While a message is in handling its identity cannot come into the previous list, whatever the others do. |
| Server.NetWatchdogServer.PushClient | source/server/server.cpp:96-99 | The locked push appends the identity and changes nothing else. |
| Server.NetWatchdogServer.HandleMessage | source/server/server.cpp:95-104 | The loop body is the steps check, register and reply of this thread, with any steps of the monitor thread, the clients and the network around and between the accesses, and leads to exactly the state that these lead to. |
| Server.NetWatchdogServer.SwapLists | source/server/server.cpp:174-178 | The swap makes the connected list the snapshot and empties it. |
| Server.NetWatchdogServer.SendHeartbeats | source/server/server.cpp:180-184 | The heartbeats of the run are one for each snapshot member, in order, routed as the peer is routable; those under way grow by the routable members less what the others take or lose; the state is exactly the one that the sending and the others' steps in between lead to. |
| Server.NetWatchdogServer.WaitForClients | source/server/server.cpp:186-190 | At most ten sleeps, and as few as the count or the clock allow; left by the count iff the arrivals reach the unsigned threshold, for a non-empty snapshot all but one of it; an empty snapshot never ends by the count; the others' steps during exactly these sleeps happen. |
| Server.NetWatchdogServer.HarvestSeen | source/server/server.cpp:192-205 | Reading the connected list and erasing from the snapshot are the harvest and erase steps, with interference in between; the snapshot keeps those not on the list that was read. |
| Server.NetWatchdogServer.EraseSeen | source/server/server.cpp:198-205 | The erase keeps exactly the unseen members, in order. |
| Server.NetWatchdogServer.ReportMissing | source/server/server.cpp:207-214 | One Disconnection entry per remaining member, in order, with exactly the enabled steps of the others in between. |
| Server.NetWatchdogServer.HandleClientDisconnected | source/server/server.cpp:164-217 | Whatever happens between any two of its accesses to shared data, the call is one complete round, in which each snapshot member is sent one heartbeat in order, routed as the peer is routable; the wait ends at the first chance, and the state is exactly the one that the round's steps and the others' lead to. Without the database it does nothing. |
| Server.UndisturbedSending | source/server/server.cpp:180-184 | With nothing in between, the heartbeats under way grow by exactly one for each routable snapshot member. |
| Heartbeats.HeartbeatsConserved | source/server/server.cpp:180-184 | In every run: the heartbeats under way afterwards and those taken, refused or lost are those under way before and those sent to routable peers. |
| Heartbeats.RoutableMembersAsked | source/server/server.cpp:180-184 | A run that asks the snapshot and in which no heartbeat is taken or lost leaves one more under way to each routable member of a duplicate-free snapshot and no more to anybody else. |
| Heartbeats.NoSendsLater | source/server/server.cpp:186-216 | After the sending no heartbeat is sent before the next round. |
| Alternation.WithoutKeepsOrder | source/server/server.cpp:198-205 | What the erase keeps stays in the order of the snapshot, and only that. |
| Alternation.ConsistentIffHazardFree | source/server/server.cpp:139-217 | In every run, at its end logs alternate, agree with the record and no registered identity is about to be logged as disconnected, if and only if no step was a hazard. |
| Alternation.AgreementIffHazardFree | source/server/server.cpp:139-217 | Between rounds every log alternates and agrees with the record if and only if no step was a hazard. |
| Alternation.AtomicHandlingAlternates | source/server/server.cpp:192-216 | With the database reachable and harvest-to-clear atomic with respect to message handling every log alternates and agrees with the record. |
| Alternation.ConsistentStep | source/server/server.cpp:147-161 | A step that is no hazard keeps the log of every identity consistent. |
| Alternation.HazardBreaks | source/server/server.cpp:147-216 | Every hazard, in a consistent reachable state, damages the log of some identity. |
| Alternation.BrokenStays | source/server/server.cpp:147-216 | The damage is never repaired. |
| Alternation.QuietRecord | source/server/server.cpp:95-99 | Between rounds and messages: every log alternates and ends in Connection exactly for the members of the connected list, if and only if no step was a hazard. |
| Race.LiveClientLoggedAsGone | source/server/server.cpp:95-99 | For every client a legal run without loss after which it listens, is registered, and is logged as disconnected. |
| Race.AgreementCanEnd | source/server/server.cpp:192-216 | In the middle of a round all logs may still agree although there was a hazard. |
| Rounds.RoundConserves | source/server/server.cpp:174-216 | Over a round with any interleaving the snapshot is the reported plus the seen again, reports keep its order, and the connected list is every identity pushed since the swap, in order. |
| Rounds.RoundInvHolds | source/server/server.cpp:174-216 | The invariant of a round in progress, after every prefix of it. |
| Rounds.ReportCount | source/server/server.cpp:186-214 | Reports = snapshot - arrivals + newcomers; a round left by the count reports at most one client more than there were newcomers. |
| Rounds.SingleFailure | source/server/server.cpp:186-214 | If only snapshot members arrive and the wait ends by the count, at most one client is reported, and a client alone is reported iff it alone stayed silent. |
| Losses.TokenGoneIsLost | source/server/server.cpp:174-184 | A client that has connected and whose token is gone is lost. |
| Losses.LostForGood | source/client/client.cpp:46-67 | From a reachable state, whatever happens next, a lost client stays lost and is never in the connected list again. |
| Losses.LostIffSilent | source/client/client.cpp:46-67 | A client that has connected is lost (a condition on the state) if and only if no continuation brings it into the connected list. |
| Detection.EveryLossIsReported | source/server/server.cpp:174-214 | In every round, whatever is interleaved and however the wait ends, a snapshot member lost at any moment of it is reported. |
| Detection.LostClientIsReported | source/server/server.cpp:186-214 | If moreover only snapshot members are seen and the wait ends by the count, it is the only one reported. |
| Detection.NoFalseAlarmIff | source/server/server.cpp:186-214 | In such a round no live client is reported if and only if some snapshot member is lost or all were seen. |
| Detection.FalseAlarmsByCount | source/server/server.cpp:186-214 | In every round, newcomers and timeouts included, no live client is reported if and only if the arrivals are the snapshot plus the newcomers less the lost ones. |
| FalseAlarms.NobodyLostButReported | source/server/server.cpp:187-214 | A legal, lossless, hazard-free run with a round by the count in which the only client, alive, is reported. |
| FalseAlarms.NewcomerBlamesLiveClient | source/server/server.cpp:187-214 | A legal, hazard-free run in which a newcomer makes up the count and a live client is reported along with the stopped one. |
| PopperOrder.OrderIsPermutation | data/bootstrap/js/bootstrap.bundle.js:3211-3241 | On every graph, cycles included, each uniquely named modifier is returned exactly once. |
| PopperOrder.DependenciesFirst | data/bootstrap/js/bootstrap.bundle.js:3219-3232 | A present dependency precedes its dependent unless both are on a common cycle. |
| PopperOrder.AcyclicDependenciesFirst | data/bootstrap/js/bootstrap.bundle.js:3219-3232 | On acyclic graphs every present dependency precedes its dependent. |
| PopperOrder.VisitSound | data/bootstrap/js/bootstrap.bundle.js:3219-3232 | A visit keeps the search invariant and closes what it opens. |
| PopperSorter.Sorter.Sort | data/bootstrap/js/bootstrap.bundle.js:3219-3232 | The recursive closure over visited set and result, on objects, computes the functional visit. |
| PopperSorter.OrderModifiersByDependency | data/bootstrap/js/bootstrap.bundle.js:3211-3241 | The imperative sort returns the specified order, which the next rows determine. |
| PopperListing.VisitExtends | data/bootstrap/js/bootstrap.bundle.js:3219-3232 | A visit enters exactly what its modifier reaches around the names visited before (`StaysInside` has the other direction), and leaves what it has entered complete. |
| PopperListing.EarlierNamesFirst | data/bootstrap/js/bootstrap.bundle.js:3222-3230 | Of a list of names, visited one after the other, what one of the first k reaches comes before what none of them reaches. |
| PopperListing.DependenciesInListOrder | data/bootstrap/js/bootstrap.bundle.js:3221-3230 | In a visit, of two dependencies entered there the one listed first comes first, unless one listed no later reaches the other. |
| PopperListing.RequiredFirst | data/bootstrap/js/bootstrap.bundle.js:3221-3221 | What a modifier requires comes ahead of what it only requires if it exists, unless something that it requires reaches the latter. |
| PopperListing.ReachedFirstComesFirst | data/bootstrap/js/bootstrap.bundle.js:3234-3239 | For every k: a modifier that one of the first k of the list reaches precedes one that none of them reaches. |
| PopperListing.ListingOrderKept | data/bootstrap/js/bootstrap.bundle.js:3234-3239 | A modifier listed later than another comes first only if some modifier listed no later than the other reaches it. |
| PopperListing.UnchangedIffRespecting | data/bootstrap/js/bootstrap.bundle.js:3211-3241 | The list is returned unchanged iff no modifier depends on one that is listed after it. |
| PopperPhases.ByPhaseIsStable | data/bootstrap/js/bootstrap.bundle.js:3247-3251 | One modifier precedes another iff its phase is earlier or the phases are equal and it came first. |
| PopperPhases.PhasesInOrder | data/bootstrap/js/bootstrap.bundle.js:1706-1717 | The nine phases in their order: before, in and after reading, the main work and writing. |
| PopperPhases.OrderModifiersSorts | data/bootstrap/js/bootstrap.bundle.js:3243-3252 | Names stay unique, exactly the modifiers of the nine phases are kept, sorted by phase, stable in the dependency order. |
| PopperPhases.DependencyKeptByPhase | data/bootstrap/js/bootstrap.bundle.js:3243-3252 | A dependency precedes its dependent in the final order iff its phase is not the later one. |
| PopperListing.ListedOrderByPhase | data/bootstrap/js/bootstrap.bundle.js:3243-3252 | In terms of the list given: two modifiers of which none listed no later than the first reaches the second come in the order of their phases, and of the list where the phases are the same. |
| PopperListing.RespectingIsSortedByPhase | data/bootstrap/js/bootstrap.bundle.js:3243-3252 | A list that respects its dependencies is only sorted by phase, stably. |
| PopperMerge.MergeModifiers | data/bootstrap/js/bootstrap.bundle.js:3270-3283 | The accumulating loop computes the specified merge. |
| PopperMerge.MergeByNameMerges | data/bootstrap/js/bootstrap.bundle.js:3270-3283 | Each name once; each field as the last definition that has it says, options and data overlaid key by key. |
| PopperMerge.MergedInOrder | data/bootstrap/js/bootstrap.bundle.js:3280-3282 | The merged modifiers come in the order of the first definitions of their names. |
| PopperMerge.ScheduledModifiers | data/bootstrap/js/bootstrap.bundle.js:3342-3342 | What is scheduled for any list of modifiers, duplicates included: unique names, none of a known phase lost, sorted by phase and stable. |
| PopperFlip.ChoosePlacement | data/bootstrap/js/bootstrap.bundle.js:2766-2855 | For any geometry the search returns the earliest of the best candidates. |
| PopperChecks.SidesInOrder | data/bootstrap/js/bootstrap.bundle.js:2789-2816 | Which sides are checked and in which order: the placement's own first, then the two across; next to a reference no larger than the popper a start placement has right (bottom) ahead of left (top), any other the reverse, and a larger reference exchanges the two. |
| PopperChecks.StartOrEnd | data/bootstrap/js/bootstrap.bundle.js:2801-2855 | Of a start and an end placement of one side that both fit on it but not across, next to a narrower reference, the start one passes more checks iff it does not stick out on the right and the other does on the left. |
| PopperChecks.StaysAtStart | data/bootstrap/js/bootstrap.bundle.js:2801-2855 | A wide popper below a narrow reference, with no room above, stays at the start, cut off by 10, instead of moving to the end, cut off by 60. |
| PopperChecks.GivenCandidates | data/bootstrap/js/bootstrap.bundle.js:2769-2779 | Candidates with fallbacks given: the preferred placement, then these, each `auto` replaced by what is computed. |
| PopperChecks.PlainCandidates | data/bootstrap/js/bootstrap.bundle.js:2766-2779 | Without a variation or without flipping them: the placement and the one across. |
| PopperChecks.VariedCandidates | data/bootstrap/js/bootstrap.bundle.js:2736-2779 | With a variation: the placement, the other end, and the same two across. |
| PopperChecks.AutoCandidates | data/bootstrap/js/bootstrap.bundle.js:2736-2779 | An `auto` placement: what is computed for it, twice where it is its own opposite. |
| PopperChecks.WithoutVariations | data/bootstrap/js/bootstrap.bundle.js:2829-2855 | With flipVariations off: the first candidate that fits, else the first that passes its first check, else the first of all. |
| PopperFlip.FindFit | data/bootstrap/js/bootstrap.bundle.js:2786-2827 | The first complete fit, which is the earliest best, or the checks of all candidates. |
| PopperFlip.Relax | data/bootstrap/js/bootstrap.bundle.js:2829-2855 | Relaxing the checks one by one ends at the earliest best of candidates none of which fits. |
| PopperFlip.FindPassing | data/bootstrap/js/bootstrap.bundle.js:2834-2842 | The first candidate whose first n checks pass, or none. |
| PopperFlip.LongestRunWins | data/bootstrap/js/bootstrap.bundle.js:2782-2855 | With flipVariations the choice is the earliest candidate with the longest run of leading passed checks; a complete fit is always preferred; the choice is a candidate. |
| PopperFlip.EarliestBestIsUnique | data/bootstrap/js/bootstrap.bundle.js:2784-2855 | The specification of the choice determines the placement. |
| PopperFlip.FitsIffNoOverflow | data/bootstrap/js/bootstrap.bundle.js:2789-2820 | A placement fits iff it overflows on none of the sides the options ask for. |
| PopperUpdate.Popper.RunFlip | data/bootstrap/js/bootstrap.bundle.js:2745-2862 | A skipped flip does nothing; otherwise the placement is the choice, and reset and skip are set iff it changed. |
| PopperUpdate.Popper.ForceUpdate | data/bootstrap/js/bootstrap.bundle.js:3379-3411 | The modifiers with a function run in order, once, or up to flip and then all again on the new placement; exact number of iterations, at most twice the modifiers; every modifier last saw the final placement iff no restart is left pending, which happens iff flip is last and changed the placement. |
| TextReplace.Find | source/common/utils.cpp:121-121 | The first occurrence from a position on, or none. |
| TextReplace.ReplaceStrInString | source/common/utils.cpp:118-126 | The in-place loop ends, equals the leftmost non-overlapping replacement and makes one pass per occurrence in the original text. |
| TextReplace.ReplaceJoinsPieces | source/common/utils.cpp:118-126 | The text is its pieces joined by the search string, the result the same pieces joined by the replacement; the length changes by occurrences times the difference. |
| TextReplace.PiecesAreCut | source/common/utils.cpp:121-124 | Each piece but the last ends where the search string first occurs after its beginning, and in the last it does not occur. |
| TextReplace.PiecesAreUnique | source/common/utils.cpp:121-124 | The text has no other pieces like that. |
| TextReplace.ReplaceOfCut | source/common/utils.cpp:118-126 | Whatever pieces are cut like that and joined by the search string: the replacement joins them by the new text. |
| TextReplace.EmptySearchNeverEnds | source/common/utils.cpp:121-124 | With an empty search string every search succeeds where it starts, and so does the next. |
| Placeholders.SequentialIsSinglePass | source/libweb/webserver.cpp:135-161 | For every text, replacing independent placeholders one after the other is one simultaneous substitution. |
| Placeholders.NoneLeft | source/libweb/webserver.cpp:157-161 | No placeholder of the list occurs in the result. |
| WebTemplate.ReplaceFills | source/common/utils.cpp:118-126 | Replacing a token in the printed template is filling it in in the segment list. |
| WebTemplate.SubstituteFillsAll | source/libweb/webtemplate.cpp:44-72 | Applying the pairs in order is filling in all tokens at once, each with the first value bound to its name. |
| WebTemplate.OrderDoesNotMatter | source/libweb/webtemplate.cpp:47-50 | With distinct names any order of the pairs gives the same text. |
| WebTemplate.Template.WriteStart | source/libweb/webtemplate.cpp:44-57 | Appends the substituted start and the optional line end. |
| WebTemplate.Template.WriteEnd | source/libweb/webtemplate.cpp:59-72 | Appends the substituted end and the optional line end. |
| WebTemplate.Template.Write | source/libweb/webtemplate.cpp:38-42 | Appends start and end. |
| WebTemplate.AutoScope.constructor | source/libweb/webtemplate.cpp:7-13 | Opening a scope writes the start. |
| WebTemplate.AutoScope.Close | source/libweb/webtemplate.cpp:15-18 | Leaving the scope writes the end with the same pairs. |
| WebTemplate.WriteRow | source/libweb/webserver.cpp:248-257 | A row is its cells between the start and the end of its scope. |
| WebTemplate.WriteRows | source/libweb/webserver.cpp:246-258 | The table body is one row per entry, in order. |
| WebTemplate.RenderedFills | source/libweb/webtemplate.cpp:44-72 | What is written is the template with its tokens filled in, then the line end if one is asked for. |
| WebTemplate.CellFills | source/libweb/webserver.cpp:254-256 | A cell is start and end of its template with the text in place of `row_text`. |
| WebTemplate.CellsConcat | source/libweb/webserver.cpp:254-256 | Cells come in order, each once. |
| WebTemplate.RowSurroundsCells | source/libweb/webserver.cpp:248-257 | A row is the start of its template, its cells and the end, with the line ends the template asks for. |
| WebTemplate.RowsConcat | source/libweb/webserver.cpp:246-258 | Rows come in order, each once. |
| StringHash.StringHash | source/libweb/webserver.cpp:7-15 | The wrapping loop equals the base-31 polynomial modulo 2^32. |
| StringHash.HashConcat | source/libweb/webserver.cpp:7-15 | hash(a+b) = hash(a) * 31^len(b) + hash(b) modulo 2^32. |
| StringHash.WindowKeepsHash | source/libweb/webserver.cpp:7-15 | Exchanging a part of a text for one of the same length keeps the hash iff it keeps the polynomial of the part modulo 2^32. |
| StringHash.ShortWindowKeepsHash | source/libweb/webserver.cpp:7-15 | Up to five characters: iff it keeps the polynomial of the part. |
| StringHash.TwoSubstitutions | source/libweb/webserver.cpp:7-15 | Two adjacent characters: iff 31 times the change of the first makes up for the change of the second. |
| StringHash.OneSubstitutionSeparates | source/libweb/webserver.cpp:7-15 | Two texts that differ in exactly one character have different hashes. |
| StringHash.Collision | source/libweb/webserver.cpp:7-15 | For every beginning and ending there are two different texts of equal length with equal hashes. |
| Dashboard.ResolveTakesFirstParameter | source/libweb/webserver.cpp:118-132 | The resolved target is the first query parameter; with an ampersand ahead of the question mark, everything after the latter. |
| Dashboard.NamesDispatch | source/libweb/webserver.cpp:138-155 | Each page name selects its page and an empty query none. |
| Dashboard.PlaceholderOfQuery | source/libweb/webserver.cpp:135-155 | The four queries and the overview with their placeholders. |
| Dashboard.TargetSelects | source/libweb/webserver.cpp:118-155 | A target without a query selects the overview, one with a page's name as its query that page. |
| Dashboard.DispatchIffHash | source/libweb/webserver.cpp:138-155 | A text selects a page iff it has the hash of its name. |
| Dashboard.WindowDispatched | source/libweb/webserver.cpp:138-155 | A text that differs from a page name inside a window of five characters selects the page iff the polynomials of the windows are equal. |
| Dashboard.TwoMistypedDispatched | source/libweb/webserver.cpp:138-155 | With two adjacent characters mistyped the page is selected iff the second makes up for the first. |
| Dashboard.MistypedNameNotDispatched | source/libweb/webserver.cpp:138-155 | A page name with one wrong character never selects that page. |
| Dashboard.CollidingNameDispatched | source/libweb/webserver.cpp:138-155 | An example of a different text that selects the clients page. |
| DashboardPage.StepsAreOnePass | source/libweb/webserver.cpp:133-161 | The replacements of the handler, in their order, are one substitution of all five placeholders. |
| DashboardPage.RenderDashboard | source/libweb/webserver.cpp:110-164 | For every text and target the page is the text with the selected placeholder replaced by `active` and the others by `text-white`, where they stand. |
| DashboardPage.PlaceholderRendered | source/libweb/webserver.cpp:135-161 | Where a placeholder stands, the page comes out `active` iff it is the selected one, else `text-white`. |
| DashboardPage.DashboardComplete | source/libweb/webserver.cpp:157-161 | No placeholder is left and at most one family is `active`. |
| Users.User.Read | source/common/objectmodel.h:79-88 | Each field is read on its own; one that is missing or of another kind keeps its value. |
| Users.User.WriteDocument | source/common/objectmodel.h:90-97 | The new document has all fields, but no Gravatar field if the address is empty. |
| Users.Mongo.CreateUser | source/database/mongo.cpp:222-235 | Appends the document of the user. |
| Users.Mongo.FetchUser | source/database/mongo.cpp:370-409 | Succeeds iff a document has the non-empty name; all such documents are read in order into the user. |
| Users.Mongo.UpdateUser | source/database/mongo.cpp:324-368 | Sends the difference to the stored user to the first document of the oid; succeeds iff the difference is not empty and the write is acknowledged. |
| Users.DiffJson | source/database/mongo.cpp:475-499 | The loop computes the new values of exactly the new or changed keys. |
| Users.DiffIsLeastPatch | source/database/mongo.cpp:475-499 | The difference brings the old object up to date, and every patch that does has at least its keys. |
| Users.DiffOfUsers | source/database/mongo.cpp:338-352 | A key is sent iff its field differs, with the new value; nothing is sent iff no field differs. |
| Users.CreateThenFetch | source/database/mongo.cpp:222-235 | A created user reads back exactly, into any user, iff it has a Gravatar address or the user read into has none. |
| Users.DocumentHasFields | source/common/objectmodel.h:90-97 | The keys of a new document with their values, and no others. |
| Users.ReadsWhatIsThere | source/common/objectmodel.h:79-88 | From a document with some of a user's fields exactly these are read, the others keep their values. |
| Users.LastDocumentDecides | source/database/mongo.cpp:397-405 | Of several documents of a name the last one decides every field that it has. |
| Users.UpdateSpares | source/database/mongo.cpp:324-368 | No update changes any name or oid, any other document, or any field outside the patch. |
| Users.UpdateKeepsUnique | source/database/mongo.cpp:324-368 | Oids and names stay unique. |
| Users.UpdateThenFetch | source/database/mongo.cpp:324-409 | Update and fetch give back exactly the modified user iff it kept the name it is stored under and its id is stored or the random ids do not get in the way. |
| Users.UpdateSucceeds | source/database/mongo.cpp:350-364 | For a stored user the patch is empty iff nothing has changed, and it carries exactly the changed fields. |
| Users.RenamingFails | source/database/mongo.cpp:329-367 | A document keeps its name; with a free new name nothing is sent. |
| Settings.TextTakenWhole | source/common/configurableoption.h:268-276 | A text from the environment is taken whole iff it is not empty and has no spaces. |
| Settings.FirstWordTaken | source/common/configurableoption.h:268-276 | Of a text its first word is taken. |
| Settings.NumberTaken | source/common/configurableoption.h:271-274 | A text of digits, after a sign or none and with anything around it that is not part of the number, is taken iff it is in range, and the value is the signed decimal number. |
| Settings.NumberIsSpelled | source/common/configurableoption.h:271-274 | Only such a text is read as a number. |
| Settings.SwitchTaken | source/common/configurableoption.h:271-274 | A switch is taken iff the number is 0 or 1. |
| Settings.BlankIsKept | source/common/configurableoption.h:268-278 | A blank text is no value of any kind and changes nothing. |
| Settings.PrintedTaken | source/common/configurableoption.h:271-274 | A printed number in range comes back as itself, with a minus sign as its negative. |
| Settings.FailedExtraction | source/common/configurableoption.h:271-278 | A failed extraction of a number leaves the value alone iff the text is blank. |
| Config.PlacesAreDistinct | source/common/config.cpp:61-85 | The 21 options have 21 different paths. |
| Config.LoadIsPointwise | source/common/config.cpp:61-85 | Loading succeeds iff every option alone could be read; each gets the value it would get alone; the table gains exactly the options not taken from the environment. |
| Config.FailureEndsLoading | source/common/config.cpp:61-85 | A call that fails makes the whole fail. |
| Config.LookFindsEntry | source/common/configurableoption.h:281-297 | A value is found iff it is the entry of the variable in the table of the category. |
| Config.PutMakesEntry | source/common/configurableoption.h:138-144 | What is written is that entry; other categories and other variables stay. |
| Config.InitFailsIff | source/common/configurableoption.h:132-145 | An option fails iff the environment has no value for it and the file has one that cannot be read. |
| ConfigFile.ConfigurableOption.ConfigureIfEnvVarNotEmpty | source/common/configurableoption.h:261-279 | Without a variable nothing happens; with one it is taken iff the extraction succeeds, with the value that its text spells (`Settings.NumberTaken`, `Settings.FirstWordTaken`); what a failed extraction leaves behind stays. |
| ConfigFile.ConfigurableOption.Init | source/common/configurableoption.h:125-167 | Environment before file before initial value, with the provenance flags; the table is written unless the environment was taken. |
| ConfigFile.ConfigurableOption.SetFromCommandLine | source/common/configurableoption.h:299-303 | Sets the value, marks it as given on the command line, touches nothing else. |
| ConfigFile.InitAll | source/common/config.cpp:61-85 | The calls on the option objects compute the specified loading. |
| ConfigFile.LoadOrCreateConfig | source/common/config.cpp:49-95 | The options are loaded and the file is written iff there was none and nothing failed; a file that exists stays. |
| ConfigFile.FirstStart | source/common/config.cpp:87-94 | Without a file and with any environment: success; value and flags of every option are determined; the new file has exactly the options not taken from the environment, with their values, and nothing else. |
| ConfigFile.LaterStart | source/common/config.cpp:55-85 | A later start, with any environment and initial values, succeeds; value and flags of every option are determined. |
| ConfigFile.LaterStartWithoutEnvironment | source/common/config.cpp:55-85 | Without the environment every option not taken from it at first is back with the same value, generated identities included. |
| ConfigFile.EnvironmentIsNotSaved | README.md:85-85 | Whatever the file, no entry is written for an option taken from the environment. |
| ConfigFile.PortFromEnvironment | source/common/config.cpp:64-64 | `MONGO_PORT` set to the digits of a number in range, with a sign or none, gives the port exactly this value, taken from the environment, whatever the file. |
| ConfigFile.UnreadableNumberIsSaved | source/common/configurableoption.h:141-144 | With an unreadable number in the environment the first start saves the default iff the text is blank, else 0 if it is no number and the nearer bound if it is out of range. |
| ConfigFile.WordSavedAsPort | source/common/config.cpp:64-64 | For the options of the program: `abc` in the environment saves port 0. |
| ConfigFile.LargeNumberSavedAsPort | source/common/config.cpp:64-64 | And 2147483648 saves port 2147483647. |
| ConfigFile.OptionsSurvive | source/common/config.cpp:61-94 | The 17 options of the program that have no environment variable: saved by the first start and unchanged by every later one, whatever the environment. |
| ConfigFile.AssignAll | source/common/configurableoption.h:65-86 | A sequence of assignments through the command line wrapper: each option has the value last assigned to it, marked as given on the command line, or is as before. |
| ConfigFile.LastAssignmentDecides | source/common/configurableoption.h:65-86 | The last assignment to an option decides its value. |
| ConfigFile.Start | source/server/main.cpp:28-30 | The file after a start does not depend on the command line; the options do. |
| Framing.WireRoundTrip | source/common/messages.cpp:17-45 | Every message decodes to itself. |
| Framing.WireIsInjective | source/common/messages.h:29-100 | Different messages have different texts. |
| Framing.ReadIffHasFields | source/common/messages.h:29-100 | Fields are read as a message iff they have all the fields that it is written with, with its values. |
| Framing.AcceptedIff | source/common/communication.h:10-26 | A message is got iff the frame parses to its fields and it is of the expected type; the program ends iff the frame parses to no message. |
| Framing.Socket.RecvMessage | source/common/communication.h:10-26 | One frame is consumed: the message if it is of the expected type, nothing if not or on a timeout, and the end of the program if it cannot be decoded. |
| Framing.Socket.RecvFrom | source/common/communication.h:28-39 | One frame for the identity, then one for the message. |
| Framing.Socket.SendMessage | source/common/communication.h:41-55 | Appends the text of the message. |
| Framing.Socket.SendTo | source/common/communication.h:57-62 | Appends identity and message. |
| Framing.ReadsInStep | source/common/communication.h:28-62 | Any sequence of addressed messages, read with any expected types, gives all identities in order, the messages of the expected types as sent, and consumes the others whole. |
| Router.RouterSocket.SendTo | source/common/communication.h:57-62 | Undisturbed, sending with an identity delivers the message to that client alone, or drops it if it cannot be routed. |
| Router.WholeMessagesArrive | source/common/communication.h:57-62 | If messages are sent whole, every client receives exactly the routable messages for it, in order, one frame each. |
| Router.WholeMessagesRead | source/common/communication.h:10-26 | And reads each as it was sent if it is of the expected type, nothing if not. |
| Router.ClientFailsIffIntrusion | source/server/server.cpp:104-104 | However the frames of two threads are mixed, a client reads a frame that ends it iff an identity comes inside a message for it. |
| Router.SplitMessagesFault | source/server/server.cpp:183-183 | While every client can be routed to, no client fails iff the frames are those of an interleaving of whole messages. |
| Router.CorrectIffWhole | source/common/communication.h:57-62 | For two threads, any mix of their frames and any routable clients: every delivered frame belongs to the message that opened the way and every routable message arrives, iff every such message is begun between two messages and ended at once. |
| Router.DeliveredIffWhole | source/server/server.cpp:183-183 | Equivalently, iff the clients get exactly the routable messages, each as it was sent. |
| Router.CorrectIffWholeFrom | source/common/communication.h:57-62 | The same for any well-formed stream of frames. |
| Router.SplitEndsClient | source/server/server.cpp:183-183 | A split of two messages that ends one client and keeps the message from the other. |
| Router.SplitVanishes | source/server/server.cpp:183-183 | A possible split after which, the first client being gone, the message for the second is lost without a failure. |
| Router.SplitMisleads | source/server/server.cpp:183-183 | A possible mix of the frames of two threads in which, the first client being gone, a third client reads its message without a failure. |

## Left out

- ZeroMQ sockets, CURVE keys and the key socket, thread creation and joining, signals and the event monitor: foreign calls. The network is a multiset per direction that loses and reorders freely, which allows more than ZeroMQ does.
- C++ data races: each access to a shared list is one atomic step, and so is each send in `Protocol`; what mixed sends do is in `Router` alone.
- The routing identity of a message and the identity inside it are the same, as the client sets both.
- Tokens.AtMostOneToken: clients have one session each and distinct identities; for clients that come back see `Reconnection`, which treats their tokens but not what rounds report of them.
- A database that fails in the middle of a round, or accepts an entry it does not store.
- TextReplace.ReplaceStrInString: requires a non-empty search string, because the loop does not end for an empty one.
- WebTemplate.SubstituteFillsAll: literals and values have no `$` and token names neither `$` nor `}`; with a `$` in a value a later pair may rewrite inserted text.
- WebTemplate.Template.WriteStart, like every writer on top of the replacement: requires non-empty search strings in its pairs. Reading the template file is not modelled.
- Dashboard.ResolveTakesFirstParameter: targets shorter than 2^64 characters.
- StringHash.OneSubstitutionSeparates: characters are bytes; `char` is signed as on the usual platforms.
- PopperMerge.MergedInOrder: does not model that JavaScript enumerates names that look like integers first.
- PopperMerge.MergeByNameMerges: does not model the name `__proto__`.
- PopperFlip.ChoosePlacement: `detectOverflow`, `computeAutoPlacement` and the measured rectangles are oracles; the automatic placements are never empty.
- PopperUpdate.Popper.ForceUpdate: functions of modifiers neither replace the state nor write `reset`, except for `flip`; `enabled` filtering, effects, `isDestroyed` and the check of the elements are not modelled.
- Users.Mongo.UpdateUser: an oid that is not a valid ObjectId, for which the program ends with an exception, is an oid that no document has.
- The MongoDB driver and BSON: a collection is a sequence of documents, an absent one an empty one; password hashing, tokens and API keys are not modelled.
- ConfigFile.AssignAll: which values the external command line parser assigns, in particular for a repeated option, is not modelled.
- Router.RouterSocket.SendTo: the socket is a model of what ZeroMQ documents of ROUTER sockets without the mandatory option; queue limits are not modelled.
- Framing.ReadsInStep: the JSON library is a pair of functions of which parsing undoes printing; the frames of one message arrive together.
- Config.LoadIsPointwise: TOML syntax errors end the program before the model begins; the file is the table.
- The writing side of `Message::Serialize`, which nothing calls; HTTP routing, file serving and time formatting; all other Bootstrap code.
