# A verified model of the sing-box kernel's stateful core

sing-box is a universal proxy platform. This project models the parts of it that keep state under
change and proves what they promise: the DNS rule router and its two interpreters, the DNS response
cache with its single-flight lock, dependency-ordered start, the outbound and DNS transport managers,
the daemon's service state machine, the connection event stream between daemon and client, the relay's
close protocol, and the binary form of cached rule-sets.

Objects that the source updates in place (managers, the DNS router and client, a connection
subscription, a saved binary) are classes with `modifies` clauses. Loops are methods proved against a
specification that does not follow the loop: sets of tree nodes, least closed sets, first deciding
rules, replayed event streams. Concurrency is modelled as state machines whose steps are the source's
atomic sections; the theorems about them quantify over every state satisfying the invariant and every
sequence of steps.

| file | what it models |
|---|---|
| `Prelude.dfy` | options, results, sequences without repetition |
| `StartOrder.dfy` | starting a list in dependency order, and the diagnosis of a stalled start |
| `Registry.dfy` | list, tag index and reverse-dependency records, as both managers keep them |
| `OutboundManager.dfy`, `TransportManager.dfy` | the managers of outbounds and of DNS servers |
| `DNSRules.dfy` | rule options, mode resolution, validation for the new mode |
| `DNSModeRuns.dfy` | the frozen mode under rule-set updates, one at a time and interleaved |
| `DNSInterpreter.dfy`, `DNSLegacy.dfy` | the two rule interpreters |
| `DNSRouter.dfy` | building rules, exchanges and lookups |
| `DNSCache.dfy`, `SingleFlight.dfy` | the response cache, sequentially on the heap and concurrently |
| `ServiceState.dfy` | start, reload, close and error of the daemon's service |
| `ConnectionStream.dfy` | the diff the daemon sends and the client that replays it |
| `Relay.dfy` | closing a relayed TCP connection |
| `SavedBinary.dfy` | the cache-file encoding |

## What the proofs found

Each of these is a property one would expect that the code does not have. The model keeps the code as
it is; the exact condition under which the property holds is proved, for all inputs, by the members named.

- The mode the DNS router freezes at Start need not fit the rule-sets afterwards. With nothing pending
  at Start, two updates that are each accepted can together break the new mode, exactly when the
  rule-sets are coupled (`DNSModeRuns.NewModeSurvivesIffUncoupled`); the legacy mode survives. An update
  validated before Start and applied after it can break either mode, exactly when the content of a
  rule-set decides which mode the rules get (`DNSModeRuns.ModeSurvivesStartIff`).
- Removing the default DNS server tests its successor the wrong way round: a fakeip server becomes the
  default, any other is refused and the removed server stays the default
  (`TransportManagers.Manager.Remove`, `TransportManagers.FakeIPBecomesDefault`).
- A lookup, which must not use fakeip servers, can reach one exactly when the default server is fakeip
  or, in the new mode, an evaluate server has become fakeip since Start
  (`DNSRouter.Router.LookupReachesFakeIPIff`, `DNSRouter.Router.LegacyLookupReachesFakeIPIff`).
- `SetError` while the service is stopping lets two reloads overlap; from every stopping state there is
  then a run that drops an instance without closing it (`ServiceState.ErrorWhileStoppingLeaks`), and
  without it there is none (`ServiceState.OrderlyRun`).
- A reload that overtakes another leaves the first call to settle the status of an instance it did not
  start: the service reports Started for an instance that is still starting, or Fatal for one that then
  starts, exactly when a call that started an earlier instance comes back while a later one is starting
  (`ServiceState.StartedMeansReady`, `ServiceState.StaleFinishMisreportsIff`,
  `ServiceState.StaleFinishIsReachable`).
- A dependency listed twice makes `Remove` delete another's record, so that a live dependency can be
  removed (`Registry.DropRecordsSafeIffDistinct`, `OutboundManagers.RepeatedDependencyIsLost`), replacing
  an object leaves the old one's records behind (`Registry.CreateExactIff`), and a refused `Remove` still takes the object off the list and the index
  (`OutboundManagers.Manager.Remove`).
- Replacing the implicit default outbound or DNS server leaves the closed object as the default
  (`OutboundManagers.Manager.Create`, `TransportManagers.Manager.Install`).
- The diagnosis of a stalled start looks tags up among the outbounds only, so over all dependency graphs
  "not found" is always true exactly when there are no endpoints, or one endpoint and no outbound
  (`StartOrder.NotFoundTruthfulIff`).
- An expired cache entry is removed in a second step, which hits a good response exactly when one was
  stored in between and is still there (`SingleFlight.RemovalHitsGoodIff`); a run of the code gets
  there (`SingleFlight.RacyRemovalIsReachable`).
- A direction that ends without an error closes its destination under the other direction exactly when
  an end does not support CloseWrite (`Relay.HalfCloseIffDuplex`).
- A connection that closes between the two reads of the first batch is shown as closed while it still
  has a snapshot; exactly those lag (`ConnectionStream.Subscription.BuildInitialConnectionState`), and
  none does after a tick if no remembered connection comes back (`ConnectionStream.Session`).

## Model

| member | source | states |
|---|---|---|
| StartOrder.StartAll | adapter/outbound/manager.go:96-166 | every start call comes after those of its dependencies and no tag is started twice; unless a start call fails, what is started is the least set closed under "all dependencies started", whatever the list order; if no call fails, everything starts iff tags are distinct, dependencies listed and the graph acyclic; a stall names a genuine chain of unstarted elements; at most one pass per element |
| StartOrder.StartPass | adapter/outbound/manager.go:100-137 | one pass keeps the start order sound, reports progress iff it started something, stops at the first failing call, and without progress leaves every unstarted element waiting for something unstarted |
| StartOrder.LintIsGenuine | adapter/outbound/manager.go:147-163 | the diagnosis ends and its path is a real dependency chain of unstarted elements ending in a repeated tag or in one the index lacks |
| StartOrder.CircularHasCycle | dns/transport_manager.go:127-143 | a "circular" diagnosis contains a dependency cycle of the graph |
| StartOrder.UnstartedHasReason | adapter/outbound/manager.go:141-163 | if nothing unstarted is ready, an unstarted element proves a cycle or an unlisted dependency |
| StartOrder.AcyclicStartsAll | dns/transport_manager.go:90-146 | in an acyclic graph with listed dependencies the least closed set is everything |
| StartOrder.StartedAllIsAcyclic | dns/transport_manager.go:90-146 | a complete well-ordered start proves the graph acyclic with all dependencies listed |
| StartOrder.OrderIndependent | adapter/outbound/manager.go:96-166 | two lists of the same elements have the same startable set |
| StartOrder.NoProgress | adapter/outbound/manager.go:138-163 | a stuck incomplete start has reached the least closed set, refutes "distinct, listed and acyclic", and yields a genuine diagnosis or, only with repeated tags, no element to blame |
| StartOrder.FullIndexIsTruthful | dns/transport_manager.go:127-143 | a diagnosis that can look every listed tag up reports only absent tags as not found |
| StartOrder.SingleIsTruthful | adapter/outbound/manager.go:147-163 | with a single element every report of a dependency not found is true |
| StartOrder.MutualWaitIsMisreported | adapter/outbound/manager.go:147-163 | whenever the first element and an endpoint wait for each other and nothing else waits, the endpoint is reported as not found |
| StartOrder.NotFoundTruthfulIff | adapter/outbound/manager.go:144-163 | over all assignments of dependencies to distinct tags, whatever is reported as not found is really absent iff there are no endpoints, or one endpoint and no outbound |
| Registry.AddRecordsMeaning | adapter/outbound/manager.go:299-302 | after recording, the tag is under each dependency, nobody else's records change, other dependencies are untouched |
| Registry.DropRecordsMeaning | adapter/outbound/manager.go:245-254 | with distinct dependencies removal takes away exactly the removed tag's records |
| Registry.DropRecordsSafeIffDistinct | adapter/outbound/manager.go:245-254 | over all tables that creations including this one leave, removing it leaves every other's records alone iff it lists each dependency once |
| Registry.CreatedIsRecorded | adapter/outbound/manager.go:299-302 | in the table any creations leave, each of them is recorded under its dependencies |
| Registry.RepeatedLosesOther | adapter/outbound/manager.go:245-254 | after creating something that lists a dependency twice and something else that has it, removing the former leaves nothing recorded under the dependency |
| Registry.CreateExactIff | adapter/outbound/manager.go:282-302 | records that match the live outbounds exactly still do after a create iff the new outbound has all dependencies of the one it replaces |
| Registry.RemoveExact | adapter/outbound/manager.go:217-254 | a completed removal keeps records exact; a refused one does so iff the outbound had no dependencies |
| Registry.RemovalRecords | dns/transport_manager.go:224-236 | when an object leaves, all others stay recorded; with exact records something depends on it iff a listed object does |
| Registry.EvictedMeaning | adapter/outbound/manager.go:282-295 | evicting the holder of a tag keeps list and index a bijection and drops nobody else |
| OutboundManagers.Manager.constructor | adapter/outbound/manager.go:36-45 | an empty manager satisfies the invariants |
| Registry.RecordDependencies | adapter/outbound/manager.go:299-302 | the loop computes the record table whose meaning is proved separately |
| Registry.ForgetDependencies | adapter/outbound/manager.go:245-254 | the loop computes the record table whose meaning is proved separately |
| OutboundManagers.Manager.Create | adapter/outbound/manager.go:261-310 | keeps list and index a bijection; exactly when it succeeds; whole new state, nothing changed on failure; every live outbound stays recorded under its dependencies; records stay exact, and the default stays listed, iff the stated condition on the replaced outbound holds |
| OutboundManagers.Manager.Unlist | adapter/outbound/manager.go:224-240 | list and index lose exactly the tag, the default moves to the first remaining outbound, and a listed default stays listed |
| OutboundManagers.Manager.Unrecord | adapter/outbound/manager.go:241-254 | refused iff something is recorded under the tag, and then nothing changes |
| OutboundManagers.Manager.Remove | adapter/outbound/manager.go:217-259 | the index loses the tag even when removal is refused; the record table after it; with exact records it is refused iff a live outbound depends on it; with every live outbound recorded, a successful removal never takes away a live outbound's dependency; closed iff removed and started; the default moves to the first remaining outbound |
| OutboundManagers.Manager.Start | adapter/outbound/manager.go:51-94 | each failure iff its cause; the new default; started order and diagnosis as for StartAll over outbounds and endpoints; a "not found" dependency is never an outbound, so it is listed iff it is an endpoint |
| OutboundManagers.Manager.SettleDefault | adapter/outbound/manager.go:58-78 | which failure, if any; the default is a configured endpoint or the fallback; list and index stay a bijection |
| OutboundManagers.RepeatedDependencyIsLost | adapter/outbound/manager.go:217-310 | a run of three creates and two removes that removes an outbound a live one depends on |
| Registry.CreateKeeps | dns/transport_manager.go:263-283 | installing an object keeps list and index a bijection and every listed object recorded under its dependencies |
| Registry.AppendMeaning | dns/transport_manager.go:70-72 | appending the fallback keeps the bijection iff its tag is new |
| TransportManagers.Manager.AssignRoles | dns/transport_manager.go:284-300 | which refusal applies, and that a refused fakeip transport takes neither role |
| TransportManagers.Manager.constructor | dns/transport_manager.go:37-46 | an empty manager satisfies the invariants |
| TransportManagers.Manager.Enlist | dns/transport_manager.go:263-283 | list and index stay a bijection and the records hold the new transport, exactly iff it has the replaced one's dependencies |
| TransportManagers.Manager.Install | dns/transport_manager.go:263-300 | list and index stay a bijection, a safe default stays safe, the fakeip transport is fakeip; whole new state; records stay exact iff the new transport has all dependencies of the replaced one; the default stays listed iff it was not replaced by one that does not take its place |
| TransportManagers.Manager.Create | dns/transport_manager.go:245-300 | installs iff tag, construction, start and close allow it, changes nothing otherwise; both fakeip refusals come with the transport already installed |
| TransportManagers.Manager.Unlist | dns/transport_manager.go:204-223 | list and index lose exactly the tag; the default is refused a successor iff the first one left is not fakeip; a safe default stays safe iff no fakeip server succeeds it |
| TransportManagers.Manager.Unrecord | dns/transport_manager.go:217-236 | refused with the successor, or iff something is recorded under the tag; otherwise exact records stay exact |
| TransportManagers.Manager.Remove | dns/transport_manager.go:197-243 | the index loses the tag whatever the result; which result, and the record table after it; the default stays safe iff no fakeip server succeeds it; a default with a proper successor is refused and stays the default off the list; closed iff removed and started |
| TransportManagers.FakeIPBecomesDefault | dns/transport_manager.go:213-223 | creating a server and a fakeip server and removing the first makes the fakeip server the default |
| TransportManagers.Manager.SettleDefault | dns/transport_manager.go:58-73 | list and index stay a bijection iff the fallback's tag is not taken |
| TransportManagers.Manager.Start | dns/transport_manager.go:52-88 | the invariants survive iff the fallback's tag is not taken; after a run there is a default, safe if it was; everything starts iff the invariants hold, dependencies are listed and the graph is acyclic; a "not found" dependency is really absent |
| DNSRules.RequirementsInDefaultRule | dns/router.go:975-999 | the flags of one rule are those of its node, and an unknown rule-set is reported |
| DNSRules.RequirementsInRule | dns/router.go:950-973 | the recursive walk computes "some node of the tree disables / needs / has a strategy", and fails iff some node names an unknown rule-set |
| DNSRules.RuleModeRequirements | dns/router.go:938-948 | the same over all nodes of all trees |
| DNSRules.ResolveLegacyDNSMode | dns/router.go:924-936 | the mode is decided by what occurs anywhere in the trees: conflict iff something disables and some strategy needs, legacy iff needed and not disabled |
| DNSRules.ModeInFields | dns/router.go:889-999 | the mode in the rules' own fields: an unknown rule-set is an error; something new together with a strategy is a conflict; otherwise legacy iff some node has a strategy, an address filter before a response, an accepted empty filter or a rule-set of destination addresses, and none has match_response, an IP version, query types, response fields, evaluate, respond, a disabled optimistic cache or a rule-set with query types |
| DNSRules.NewModeHasNoStrategy | dns/router.go:924-936 | in the new mode no action anywhere carries a strategy |
| DNSRules.LegacyModeHasNoNewFeature | dns/router.go:889-936 | in the legacy mode nothing that only the new interpreter understands occurs anywhere |
| DNSRules.ValidateDefaultRule | dns/router.go:1071-1094 | accepts iff the rule is not one the new interpreter refuses, and reports whether it reads a response |
| DNSRules.ValidateRuleTree | dns/router.go:1052-1069 | accepts iff no node of the tree is refused, and reports whether any node reads a response |
| DNSRules.ValidateLegacyDNSModeDisabledRules | dns/router.go:1014-1029 | accepts iff no node anywhere is refused and every rule that reads a response comes after an evaluate rule |
| DNSRules.ValidInFields | dns/router.go:1014-1094 | what the new mode refuses, in the rules' own fields: response or address tests without match_response, unknown or address-only rule-sets there, an accepted empty filter anywhere, and reading a response before any rule evaluates one; it accepts everything else |
| DNSModeRuns.ValidateRuleSetMetadataUpdate | dns/router.go:227-274 | accepts an update iff the router is closing or has no rules, or the rules with the new metadata can be interpreted in the frozen mode (before start: in either) |
| DNSModeRuns.AcceptsExactly | dns/router.go:227-274 | an update is let through iff there are no rules or the router is closing, or with it the rules fit the frozen new mode, or are known and hold nothing new in the frozen legacy mode, or before start fit one of the modes |
| DNSModeRuns.StartsExactly | dns/router.go:129-161 | start commits iff the rules fit the new mode or are known and call for the legacy one, and to the mode they call for |
| DNSModeRuns.FrozenModeKeepsFitting | dns/router.go:227-274 | over every run of start, updates applied as they are validated, and close, the mode chosen at start fits the rule-sets as they are now |
| DNSModeRuns.LegacyModeSurvivesInterleaving | route/rule/rule_set_local.go:140-149 | once started in the legacy mode with only harmless updates pending, the mode keeps fitting under every interleaving of validations and applications |
| DNSModeRuns.NormalFormOfNewMode | dns/router.go:924-1094 | the rules fit the new mode iff a part no update can change holds, each referenced content is usable on its own, and something disables the legacy mode or no content needs it |
| DNSModeRuns.UncoupledSurvives | route/rule/rule_set_remote.go:193-203 | once started in the new mode without coupled rule-sets and with only acceptable updates pending, every interleaving keeps fitting |
| DNSModeRuns.CoupledBreaks | route/rule/rule_set_remote.go:193-203 | for coupled rule-sets, a run of two accepted updates after which the new mode does not fit |
| DNSModeRuns.NewModeSurvivesIffUncoupled | route/rule/rule_set_local.go:140-149 | with nothing pending at Start, the new mode survives every interleaving iff the rule-sets are not coupled |
| DNSModeRuns.PendingBreaksNewMode | dns/router.go:138-151 | if content decides the mode, an update validated before Start and applied after it leaves the frozen new mode not fitting |
| DNSModeRuns.PendingBreaksLegacyMode | dns/router.go:138-151 | likewise for the frozen legacy mode |
| DNSModeRuns.OnlyNewStep | dns/router.go:246-255 | rules whose mode content cannot change from the new one: every step keeps the mode, built or committed, fitting |
| DNSModeRuns.OnlyLegacyStep | dns/router.go:246-267 | rules that never fit the new mode: every step keeps the legacy mode fitting |
| DNSModeRuns.ModeSurvivesStartIff | dns/router.go:129-161 | over every run from before Start, with building, committing, validating and applying interleaved, the committed mode fits iff the content of no rule-set decides the mode |
| DNSModeRuns.ContentDecidesMeaning | dns/router.go:924-936 | content decides the mode iff some content fits the new mode and some other resolves to the legacy one |
| DNSInterpreter.ApplyAllSwitches | dns/router.go:352-371 | collected options turn a switch on iff some option did, and never change a strategy |
| DNSInterpreter.ApplyAllLatest | dns/router.go:352-371 | TTL rewrite, client subnet and timeout come from the last options that set them |
| DNSInterpreter.ExchangeWithRules | dns/router.go:414-523 | the query is decided by the first deciding rule, or by the default server if there is none; the outcome, and every message sent with its options, follow from the rules before it |
| DNSInterpreter.OptionsAreCollected | dns/router.go:414-523 | the options at a rule are exactly those of the matched route-options rules before it; evaluate and route options do not leak |
| DNSInterpreter.EvaluationIsLatest | dns/router.go:433-465 | the response at hand is that of the latest matched evaluate rule, and gone if that one failed |
| DNSInterpreter.NothingEvaluatedYet | dns/router.go:420-465 | before the first matched evaluate rule there is no response to match or return |
| DNSInterpreter.AtHand | dns/router.go:352-371 | at each rule, TTL rewrite, timeout and client subnet are those of the nearest matched route-options rule before it that sets them, else the query's own; a switch is on iff the query or such a rule turned it on; the strategies are the query's |
| DNSInterpreter.MessagesCarry | dns/router.go:414-523 | every message of a query goes to its rule's server, or to the default, and carries its rule's settings where set, else the nearest collected, else the query's own; it is uncached iff the query, a matched route-options rule, its rule, or a route to a fakeip server says so; its strategy is the query's or the default |
| DNSInterpreter.MatchSees | dns/router.go:420-465 | a rule is matched against the response the latest matched evaluate rule received, or against none if that one failed |
| DNSInterpreter.MatchSeesNothing | dns/router.go:420-432 | before the first matched evaluate rule a rule is matched against no response |
| DNSInterpreter.DecidedByFirst | dns/router.go:426-523 | the query ends at the first matched rule that routes to a usable server, responds, answers or rejects by refusing or dropping; refused, dropped, answered or exchanged accordingly |
| DNSInterpreter.RespondedIsLatest | dns/router.go:456-465 | respond returns what the latest matched evaluate rule received and from whom, and fails iff it received nothing |
| DNSInterpreter.NothingToRespond | dns/router.go:456-461 | respond without a matched evaluate rule before it fails |
| DNSInterpreter.ActionsAsConfigured | route/rule/rule_action.go:126-181 | a built rule does what it was configured to do, with the server and options it was configured with |
| DNSInterpreter.FakeIPOnlyByEvaluate | dns/router.go:381-395 | a query that may not use fakeip servers reaches one only as the default or by an evaluate rule |
| DNSInterpreter.FakeIPReachableIff | dns/router.go:381-395 | some matching of the rules makes such a query reach a fakeip server iff the default is one or an evaluate rule names one |
| DNSInterpreter.NewModeActionsHaveNoStrategy | route/rule/rule_action.go:126-181 | actions built from rules resolved to the new mode carry no strategy |
| DNSInterpreter.SkippingStrategyLosesNothing | dns/router.go:352-371 | for every query, an interpreter honouring the strategy has the same progress, deciding rule, outcome and messages with the same options as the one that skips it |
| DNSLegacy.MatchDNS | dns/router.go:276-350 | the scan ends at the first rule that ends it, with its server and the options scanned so far, or at the default server |
| DNSLegacy.TryFrom | dns/router.go:670-726 | one turn of the retry loop: the attempt a scan from the given rule explains, or what a rule without a server answers |
| DNSLegacy.LegacyQuery | dns/router.go:670-726 | the retry loop ends after at most one attempt per rule and one more; each attempt starts after the rule of the one before, which was turned down, with the query's own options; the outcome is the last reply or what a rule without a server says |
| DNSLegacy.LookupAvoidsFakeIP | dns/router.go:792-835 | a lookup reaches a fakeip server only as the default |
| DNSLegacy.NoMatchAsksDefault | dns/router.go:792-835 | when no rule matches, a lookup is one attempt at the default server |
| DNSLegacy.ScanReachesFakeIPIff | dns/router.go:276-350 | over all matchings, a lookup by scanning can reach a fakeip server iff the default is one |
| DNSLegacy.NilTransportNeedsReply | dns/router.go:679-704 | only a reject action with the reply method leaves an exchange without a server |
| DNSLegacy.ScannedAtHand | dns/router.go:276-350 | after a scan, strategy, TTL rewrite, timeout and client subnet are those of the last matched route-options rule since the scan began that sets them, else the query's own; caching is off iff the query or such a rule says so |
| DNSLegacy.AttemptsCarry | dns/router.go:670-710 | every attempt goes to its rule's server, or the default, and carries its rule's settings where set, else the last scanned since the attempt's scan began, else the query's own, the default strategy if still unset; it is uncached iff the query, a scanned route-options rule, its rule or that rule's fakeip server says so |
| DNSLegacy.RetriedOnlyIfTurnedDown | dns/router.go:706-724 | an attempt is followed by another only if its rule checks responses and the reply was rejected or, in a lookup, failed; the next scan begins after that rule |
| DNSLegacy.EndedBy | dns/router.go:679-726 | a query ends with a reply its rule does not turn down, or with a rule that refuses, drops (exchanges only) or answers |
| DNSLegacy.RuleDecides | dns/router.go:679-700 | when a scan ends at a rule without a server: a lookup is refused by every reject rule, an exchange refused or dropped as the rule says, a predefined answer given |
| DNSLegacy.ScanPasses | dns/router.go:280-345 | a scan passes a rule over iff it does not match, limits addresses that are not asked for, only sets options, or names a server that is unknown or may not be used |
| DNSLegacy.LegacyActions | dns/router.go:889-916 | actions built from rules resolved to the legacy mode are never evaluate or respond and never switch optimistic caching |
| DNSLegacy.SkippingOptimisticLosesNothing | dns/router.go:276-350 | every legacy scan leaves the same options as one that ignores nothing |
| DNSRouter.BuildRules | dns/router.go:177-219 | succeeds iff no nested rule has an action, the mode resolves, the new mode validates, no evaluate rule names a fakeip server, each rule builds (action, server, IP version) and its conditions parse and start; yields the actions and the mode |
| DNSRouter.BuildableInFields | dns/router.go:177-219 | rules build iff their mode is settled and admits them, each top-level rule has an action that names a server if it needs one, does not reject with a reply and does not evaluate with a fakeip server, no nested rule has an action, each IP version is 4 or 6, and the rest parses |
| DNSRouter.BuiltActions | dns/router.go:1031-1050 | no built evaluate action reaches a fakeip server and no built reject action has the reply method |
| DNSRouter.Router.constructor | dns/router.go:54-117 | a new router has no rules and no mode |
| DNSRouter.Router.Start | dns/router.go:129-161 | succeeds iff the rules can be built; freezes the mode, which fits the rule-sets; a router closed meanwhile keeps nothing |
| DNSRouter.Router.Close | dns/router.go:163-175 | leaves no rules, whatever came before |
| DNSRouter.Router.Exchange | dns/router.go:621-726 | format error iff not one question, closed iff closed; otherwise the outcome and receivers the frozen mode's interpreter specifies; in the legacy mode a bounded number of attempts and never a missing server |
| DNSRouter.Router.Lookup | dns/router.go:746-835 | closed iff closed; an A query unless the lookup strategy, else the strategy, else the router's default is IPv6-only, an AAAA query unless it is IPv4-only, each decided by the rules; a fakeip server is used only as the default or if it replaced an evaluate server since start, so with a safe default and unchanged servers none is, in either mode |
| DNSRouter.Router.LookupType | dns/router.go:597-619 | one address query is decided by the rules without fakeip routes |
| DNSRouter.Router.LookupCarries | dns/router.go:525-595 | every message of a lookup carries the lookup strategy, else the strategy, else the router's default, and otherwise what the rules and the caller's options give |
| DNSRouter.Router.LookupByScan | dns/router.go:792-835 | a legacy lookup follows the retry specification and uses a fakeip server only as the default |
| DNSRouter.Router.LookupReachesFakeIPIff | dns/router.go:563-619 | in the new mode some matching makes an address query of a lookup reach a fakeip server iff the default is one or an evaluate server is one by now, and such an evaluate server was put in place after start |
| DNSRouter.Router.LegacyLookupReachesFakeIPIff | dns/router.go:792-835 | in the legacy mode some matching makes a lookup reach a fakeip server iff the default is one |
| DNSRouter.Router.ReachedIsUsed | dns/router.go:597-619 | what such a query reaches is what the lookup reports as used |
| DNSCache.NormalizeTTL | dns/client.go:144-153 | every record but OPT gets the TTL, nothing else changes |
| DNSCache.FilterHints | dns/client.go:459-474 | an HTTPS answer loses exactly the hints the strategy rules out |
| DNSCache.ExtractNegativeTTL | dns/client.go:110-122 | the lesser of TTL and MINIMUM of the first SOA in the authority section |
| DNSCache.NegativeTTLIsOfFirstSoa | dns/client.go:110-122 | there is a negative TTL iff the authority section has an SOA, and it is the lesser field of the first one |
| DNSCache.LeastTTL | dns/client.go:131-141 | the least positive TTL of all records but OPT, or 0 if there is none |
| DNSCache.ComputeTimeToLive | dns/client.go:124-142 | the negative TTL for an answerless response with an SOA, otherwise the least positive TTL |
| DNSCache.ApplyResponseOptions | dns/client.go:458-481 | the reply as kept: filtered, stamped with the rewritten or computed TTL |
| DNSCache.KeptRecords | dns/client.go:458-481 | a kept reply has the code, records, order and sections it came with, the same TTL on every record but OPT, and an HTTPS answer without exactly the hints the strategy rules out |
| DNSCache.KeptFor | dns/client.go:124-142 | it is kept for the rewritten TTL, else the negative TTL if there is no answer, else the least positive TTL received |
| DNSCache.RemainingIsSafe | dns/client.go:426-429 | the TTL shown for a kept response never reaches past its expiry, never grows, never exceeds the stored TTL, and neither the duration nor the 32-bit cast overflows |
| DNSCache.RemainingIsExact | dns/client.go:426-427 | until the expiry the time left is the greatest whole number of seconds that does not reach past it, after it zero |
| DNSCache.Client.constructor | dns/client.go:63-89 | an empty cache satisfies the invariant |
| DNSCache.Client.LoadResponse | dns/client.go:397-430 | answers iff the key is cached and unexpired or in the optimistic window, with a fresh copy of the last reply stored for that key; removes the entry otherwise |
| DNSCache.Client.CopyOut | dns/client.go:416-429 | a fresh copy of the last reply stored for the key, its TTLs the time left or, past the expiry, 1 |
| DNSCache.Client.ServedIsInTime | dns/client.go:416-429 | record by record: a cached answer is the kept reply, each TTL but that of OPT the greatest number of seconds not reaching past the expiry, or 1 past it, which only happens in the optimistic window |
| DNSCache.Client.StoreCache | dns/client.go:326-347 | a reply with a zero TTL is not kept; otherwise a private copy is |
| DNSCache.Client.Install | dns/client.go:335-346 | the entry becomes the cache's own and nothing handed out is shared |
| DNSCache.Client.LoadOffer | dns/client.go:195-208 | a stale answer is withheld iff the caller disabled optimistic caching |
| DNSCache.Client.ServeCached | dns/client.go:195-208 | the answer carries the caller's identifier and shares nothing with the cache; a stale one asks for a refresh |
| DNSCache.Client.AcceptReply | dns/client.go:226-258 | refused iff a checker is present and turns it down or the code is an error; stored iff cacheable, with a usable code and a positive TTL |
| DNSCache.Client.AskTransport | dns/client.go:210-258 | no answer iff the transport fails; refused iff a checker is present and turns the reply down or its code is neither success nor name error; otherwise the reply as kept, under the caller's identifier, stored iff cacheable, with such a code and a positive TTL |
| DNSCache.Client.Exchange | dns/client.go:155-259 | an empty answer iff an A query meets an IPv6-only strategy or an AAAA query an IPv4-only one; from the cache iff it may be used and the entry is unexpired, or in the optimistic window and the caller takes stale answers, and then with the last reply stored for exactly this question and transport, each TTL the exact time left; otherwise from the transport; the cache never shares an object with any caller |
| DNSCache.Client.Reject | dns/client.go:163-168 | a fresh empty answer under the caller's identifier |
| DNSCache.Client.Refresh | dns/client.go:483-522 | a background refresh hands nothing out, keeps nothing from an error or a rejected reply, and otherwise stores the reply as kept under its own key only |
| DNSCache.Client.Evict | dns/client.go:103-108 | eviction at any point keeps the invariant |
| DNSCache.Client.ClearCache | dns/client.go:306-316 | nothing stored before is served after |
| SingleFlight.AtMostOneLeader | dns/client.go:181-194 | a key never has two leaders |
| SingleFlight.CloseKeeps | dns/client.go:189-194 | a channel is closed once, by the call that opened it, after its map entry is gone |
| SingleFlight.StepKeeps | dns/client.go:179-208 | every step of every call keeps the invariant tying calls, lock map, channels and cache |
| SingleFlight.SingleFlightRuns | dns/client.go:179-208 | for every interleaving of any number of calls: one leader per key, no double close, no follower waiting for nobody |
| SingleFlight.BeginLeadsOrWaits | dns/client.go:181-194 | a new call waits for the channel of its key if there is one, else opens one and leads |
| SingleFlight.LoadFinds | dns/client.go:195-208 | a call that looks into the cache, leader or follower: an unexpired entry answers it, one in the window answers it and is refreshed if stale answers are taken and otherwise sends it to the transport, an older one is removed first, none sends it to the transport |
| SingleFlight.AskedOnlyOnMiss | dns/client.go:195-221 | a call comes to ask the transport only if its look into the cache found nothing usable |
| SingleFlight.AnsweredBy | dns/client.go:179-221 | an answer from the cache is that of a usable entry of the call's key, one from the transport its reply, a failure its error, a cancellation one while waiting; the answer stays until the call returns |
| SingleFlight.CacheMoves | dns/client.go:326-347 | every step leaves every key of the cache alone unless it stores a live reply for it or takes it out |
| SingleFlight.RefreshMoves | dns/client.go:483-522 | a background refresh begins iff a stale entry is served or seen, and lasts until it ends |
| SingleFlight.CachedWasStored | dns/client.go:326-347 | over every run, whatever the cache holds for a key was stored for that key |
| SingleFlight.AnswerWasStored | dns/client.go:195-208 | over every run, a call answered from the cache gets a response that was stored for its own key |
| SingleFlight.NoFollowerStranded | dns/client.go:182-189 | a waiting call can go on, or the call it waits for is under way and waits for nobody |
| SingleFlight.QuiescentIsUnlocked | dns/client.go:189-194 | when all calls have returned, no key is locked and every channel is closed |
| SingleFlight.AllCallsCanReturn | dns/client.go:179-258 | from every reachable state the calls present can all return without any being cancelled |
| SingleFlight.CallStepsAreBounded | dns/client.go:179-258 | under every schedule the calls present take at most six steps each, so no interleaving lets them go on for ever |
| SingleFlight.FollowerGetsCached | dns/client.go:182-208 | a follower that looks into the cache after its leader stored gets a cached answer, the leader's own unless overwritten, provided the key was not taken out and has not expired |
| SingleFlight.RemovalHitsGoodIff | dns/client.go:412-425 | some steps after a call found an entry too old, its removal hits a response that is still good iff one was stored in between, not taken out again and not yet expired |
| SingleFlight.RemovalLosesReply | dns/client.go:412-425 | in every state with one call about to remove and another exchanging for the same key, the other's stored reply is what the removal loses |
| SingleFlight.RacyRemovalIsReachable | dns/client.go:179-208 | a woken follower and a new leader reach that state from an empty cache |
| ServiceState.NeverNilInstance | daemon/started_service.go:375-386 | in every run, an RPC that checks the status meets the current instance if the service is starting or started, never a nil one, and is turned away otherwise |
| ServiceState.StatusMoves | daemon/started_service.go:182-262 | each status is entered only for its own reasons: Starting by a reload that built an instance, Started by a start that succeeded while Starting, Stopping by a reload over an instance, Idle by a close that succeeded, Fatal by a failure or an error report |
| ServiceState.CloseEndsService | daemon/started_service.go:234-256 | closing a starting or started service closes its instance and leaves Idle, or Fatal if that failed; otherwise it does nothing |
| ServiceState.OrderlyStep | daemon/started_service.go:182-262 | every step but an error while stopping keeps: stopping iff exactly one call is closing, it closes the current instance, whatever left the instance field was closed, and a service that runs does not run on a closed instance |
| ServiceState.OrderlyRun | daemon/started_service.go:182-262 | the same for every run without an error while stopping |
| ServiceState.TurnedAwayWhileStopping | daemon/started_service.go:182-256 | while one call is closing, any number of other calls change nothing it relies on |
| ServiceState.ServiceRuns | daemon/started_service.go:128-262 | both results for every run of a fresh service |
| ServiceState.StartingIsSettled | daemon/started_service.go:203-224 | in every run a starting service waits for exactly one call, the one that starts its instance, whose end makes it Started on success and Fatal on failure |
| ServiceState.StartedMeansReady | daemon/started_service.go:209-224 | in every run in which no call that started an earlier instance comes back while a later one is starting, Started means the current instance has started |
| ServiceState.StaleFinishMisreportsIff | daemon/started_service.go:210-222 | after any run, a successful call that comes back while Starting makes the service report Started for an instance still starting iff it started an earlier one |
| ServiceState.StaleFinishIsReachable | daemon/started_service.go:182-224 | two overlapping reloads get there; if the overtaken one fails instead, the service stays Fatal though its instance starts |
| ServiceState.ErrorWhileStoppingLeaks | daemon/started_service.go:258-262 | from every stopping state, an error report opens a run that drops an instance without closing it |
| ConnectionStream.OpenPartDecidesOpenPart | experimental/libbox/command_types.go:129-166 | what the client shows as open after some events depends only on what it showed as open before |
| ConnectionStream.ClientShowsStream | experimental/libbox/command_types.go:129-191 | a client that forgets old closed connections between batches shows as open exactly what replaying the whole stream leaves open |
| ConnectionStream.PartStaysPart | experimental/libbox/command_types.go:129-166 | a client that forgets shows nothing, open or closed, that the whole replay does not show |
| ConnectionStream.ShownAsClosed | experimental/libbox/command_types.go:129-166 | a connection closed by an event and not mentioned since is shown closed at that time, without traffic, with the totals of the event or those shown before |
| ConnectionStream.Connections.ApplyEvents | experimental/libbox/command_types.go:129-191 | the batch is replayed and exactly the connections closed for longer than the limit are forgotten |
| ConnectionStream.TracksMeansOpen | daemon/started_service.go:817-821 | what a replay of everything sent leaves open is the snapshots but the lagging ones |
| ConnectionStream.ObserveTracks | daemon/started_service.go:896-955 | one reading keeps client and snapshots in step: open iff snapshotted, totals apart by the drift, the rates what the counters grew, not zero iff there was traffic |
| ConnectionStream.ClosedTracks | daemon/started_service.go:866-889 | a closing event keeps them in step |
| ConnectionStream.ListedClosedTracks | daemon/started_service.go:838-848 | listing a closed connection makes it lag iff it has a snapshot |
| ConnectionStream.SettledAt | daemon/started_service.go:896-955 | after a tick each snapshot is what was just read, and its drift moved once |
| ConnectionStream.TickUpdatesAreExpected | daemon/started_service.go:891-987 | updates are sent only for connections that are still active and that the client shows as open, or that lag |
| ConnectionStream.Subscription.constructor | daemon/started_service.go:755-763 | an empty subscription is in step with an empty client |
| ConnectionStream.Subscription.DescribeActive | daemon/started_service.go:823-837 | the first batch's active part leaves the client showing exactly the active connections |
| ConnectionStream.Subscription.BuildInitialConnectionState | daemon/started_service.go:823-849 | client and snapshots are in step after the first batch, and exactly the connections read as both active and closed lag |
| ConnectionStream.Subscription.ApplyConnectionEvent | daemon/started_service.go:851-889 | each queued event keeps client and snapshots in step; exact new snapshots and drift, so other connections are untouched; a connection is announced iff it is new; a closure carries the first time that is set |
| ConnectionStream.Subscription.DiffActive | daemon/started_service.go:896-955 | the loop sends what the readings in order give |
| ConnectionStream.Subscription.CloseInactive | daemon/started_service.go:957-986 | one closure for each snapshotted connection that is no longer active, in any order, with what is remembered of it |
| ConnectionStream.Subscription.BuildTrafficUpdates | daemon/started_service.go:891-987 | after a tick the snapshots are the active connections with the counters just read, lagging ones shrink to those still active, and the batch is the readings' events followed by the closures |
| ConnectionStream.Subscription.Drain | daemon/started_service.go:783-806 | draining the queue into one batch moves every connection's snapshot and drift as its own life says |
| ConnectionStream.Subscription.Serve | daemon/started_service.go:773-815 | draining the queue or a tick moves every connection's snapshot and drift as its own life says |
| ConnectionStream.MonotoneLosesNothing | daemon/started_service.go:896-955 | with counters that never went backwards nothing is lost |
| ConnectionStream.Deliver | daemon/started_service.go:783-814 | one batch, sent unless empty, keeps the client showing as open what replaying everything sent leaves open |
| ConnectionStream.Connect | daemon/started_service.go:755-763 | the first batch resets the client and leaves it in step |
| ConnectionStream.Session | daemon/started_service.go:755-815 | over the first batch and any queued events and ticks, the client shows each connection as its own life is: open iff announced and not closed since, with the counters last read plus the skew at its announcement plus what went backwards, and as rates what the counters last grew; nothing is shown that replaying everything sent does not show; only connections of the first batch lag, and none after a tick |
| ConnectionStream.ShownAfterTick | daemon/started_service.go:891-987 | after a tick without lagging connections the client shows exactly the active ones, with monotone counters at the values last read plus the skew |
| Relay.OnCloseExactlyOnce | route/conn.go:95-154 | for every failure point and every order of the copiers: onClose at most once, and once everything is over exactly once with both ends closed |
| Relay.DirectionEnds | route/conn.go:273-308 | a direction that fails, or whose end cannot be passed on, closes both ends at once; one that ends well leaves its source alone and half-closes its destination if it can, else closes it |
| Relay.StepsAreBounded | route/conn.go:95-154 | no run has more than 13 steps that change anything |
| Relay.CanEnd | route/conn.go:95-154 | from every reachable state the connection can be brought to its end, with onClose called once |
| Relay.PoliteRun | route/conn.go:273-308 | without errors and with CloseWrite on both ends, an ended direction has half-closed its destination and nothing more is closed until both have ended |
| Relay.HalfCloseIffDuplex | route/conn.go:273-308 | no error-free run closes an end early iff both ends support CloseWrite |
| SavedBinaries.UvarintRoundTrip | adapter/experimental.go:72-99 | reading a written length gives it back, for every 64-bit value |
| SavedBinaries.UvarintPrefixFails | adapter/experimental.go:101-134 | a length cut off is an error |
| SavedBinaries.BigEndianRoundTrip | adapter/experimental.go:86-89 | reading a written fixed-width integer gives it back |
| SavedBinaries.TimestampRoundTrip | adapter/experimental.go:86-89 | reading a written timestamp gives it back, negative ones included |
| SavedBinaries.RoundTrip | adapter/experimental.go:72-134 | decoding an encoding gives the fields back, whatever version byte stands in front and whatever follows |
| SavedBinaries.EncodeInjective | adapter/experimental.go:72-99 | different saved binaries have different encodings |
| SavedBinaries.TruncationDetected | adapter/experimental.go:101-134 | every proper prefix of an encoding is an error |
| SavedBinaries.SavedBinary.MarshalBinary | adapter/experimental.go:72-99 | writes the encoding of the fields, the time in whole seconds |
| SavedBinaries.SavedBinary.UnmarshalBinary | adapter/experimental.go:101-134 | succeeds iff the input decodes, with the same fields; on an error the etag is kept, and which fields may already have changed |
| SavedBinaries.SavedBinary.Transfer | adapter/experimental.go:72-134 | writing one object and reading into another reproduces content, etag and the time to the second |

## Left out

- Protocol implementations, transports, TLS, sniffing and rule matching itself: whether a rule matches, has an address limit or a reply passes its check is an arbitrary parameter of the interpreter models.
- The order in which the route router looks metadata up, and a missing route router: an unknown rule-set is the only lookup error.
- DNSRouter.BuildRules: that a rule has conditions, that they parse, a known logical mode and the start of a rule are one arbitrary parameter, because they depend on conditions the model does not have. DNSRouter.Router.Start is one step; the gap between building and committing is in the runs of DNSModeRuns.ModeSurvivesStartIff.
- DNSModeRuns.FrozenModeKeepsFitting: updates apply as they are validated; overtaking is in DNSModeRuns.ModeSurvivesStartIff. A validation reads the metadata of all rule-sets in one step.
- Exchanges and lookups that name their transport in the options, the reverse mapping, address sorting and filtering by family.
- DNSCache.Client.Exchange: a message without a question, the persistent cache store, disabled expiry, the rejected-domain store, EDNS options, client subnets, padding and loopback detection are not modelled; time is exact, where the source converts the remaining duration through a floating-point number of seconds and the LRU library rounds lifetimes to milliseconds.
- DNSCache.Client.ServedIsInTime: the clock has not gone back since the reply was stored; the source reads a clock that does not.
- SingleFlight.AllCallsCanReturn: a schedule exists, and by SingleFlight.CallStepsAreBounded none goes on for ever; that a transport answers at all and that a call that can step gets to are assumptions. Calls of one key that wait for calls of another through nested exchanges are not modelled.
- SingleFlight.RemovalHitsGoodIff: reading an entry and reading the clock are one step, two in the source. A lookup that looks into the cache without the lock is not a call: that it starts a refresh is a step of its own, that it removes an entry is an eviction.
- Both managers' Close, which only iterates. Start stages other than the one that orders by dependency, and the panic on a stage started twice.
- TransportManagers.Manager.Start: the fallback is taken to be the local server, which is not fakeip.
- Sharing of one backing array between a manager's list and an earlier copy of it, which Go's in-place append allows: lists are values.
- OutboundManagers.Manager.Remove: the close of a removed outbound is a flag; an error of it does not change the state.
- ServiceState.OrderlyStep: starting and closing an instance are steps with an arbitrary result; status subscriptions, log streams and the RPCs that wait for the started state are not modelled.
- ConnectionStream.Subscription.BuildTrafficUpdates: counters are unbounded integers, and a connection's fields other than rates, totals and closing time are not modelled. The client's filters and sorting only read its map.
- Relay.OnCloseExactlyOnce: a failed handshake report, and closing on handshake failure, come from a library that is not part of this model; it is taken to call onClose once and to close the connection. The packet relay follows a different protocol and is not modelled.
- SavedBinaries.SavedBinary.UnmarshalBinary: a length so large that allocating for it panics is not modelled. Varints and big-endian integers are modelled as the encoding/binary package documents them.
- Error texts, logging and deprecation reports.
