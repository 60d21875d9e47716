# SmartDNS model

SmartDNS compiles a set of services into one configuration per node, pushes the
configurations to the nodes, and runs a DNS front end, an SNI proxy and an egress relay
from them. This project models the parts of that path where a mistake is hard to see, in
the form the program has (classes with fields that methods change, loops, and steps of
protocols), and proves what the parts promise each other:

- **Rules** (`RuleLines`, `RuleForms`, `DomainSet`, `RuleList`): parsing of rule sources and host
  names, and what each written form means; the suffix index and its scores against the plain label-boundary rule; merging, comparing and
  hashing of rule lists.
- **Compiler and its readers** (`Model`, `Conflicts`, `Compiler`, `CompiledMeaning`, `Routing`, `Ownership`,
  `Determinism`, `CompiledOwners`, `Validation`, `SourceOfTruth`): what `Compile` produces, field by
  field in terms of its input, and that it does not depend on the order the services are read in; what
  DNS, proxy and relay make of it, and that they agree; which service a compiled ingress answers a host
  with, exactly when a host has two best services, and which of them it goes to; and when the agents
  accept the artifacts.
- **Egress selection** (`Health`, `Ordering`, `PoolOrder`, `Selector`, `Failover`, `Dialing`): the
  health state machine, the four orders with latency hysteresis and the weighted draw, the dial loop,
  and failover with many dials at once.
- **Query limiter** (`Limiter`, `Admittance`): the token bucket that forgets idle clients against the one
  that never forgets, and exactly which queries it admits, without a bucket.
- **Byte path** (`Streams`, `ClientHello`, `Tunnel`, `WireBytes`, `Passthrough`): the ClientHello parser
  against its grammar, the CONNECT frame, and conservation of bytes end to end.
- **Rollout** (`Panel`, `Rollout`, `Reconciling`, `RollingBack`, `Convergence`, `Activation`, `Polling`, `Mending`,
  `Sticking`, `AgentCore`): the panel's tables; the push protocol with any number of overlapping,
  lost and late calls, whose reconciling is the three statements it is; which revisions are active, and
  which a rollback returns to, after any run; what pushing and polling come to, exactly when polling is sure to activate a
  revision, and two runs that get stuck; and the agent with crashes between any two effects.
- **Rule versions** (`RuleVersions`, `RuleUpdates`), **session admission** (`Admission`) and the **log
  throttle** (`Throttle`).

Every method is proved equal to a function or relation of the state before it. The lemmas are
about those functions and say what they mean in terms of the inputs; the modules named
`...Meaning`, `CompiledOwners`, `PoolOrder`, `Admittance`, `WireBytes`, `RuleForms`, `RuleUpdates` and
`RollingBack` do so with definitions of their own. Protocols are state machines: `Can` says when a step is
possible, `Do` what it does, `Runs`/`End` are finite runs, and the results hold in every run.

Regular expressions, IDNA, JSON, hashing, random draws, clocks and the network are
parameters. Times, token counts and latencies are `real`.

Some results say where the program does not do what one might expect. Each
comes with an input or run that shows it, and with the exact condition where there is one:

- A suffix hit more than 100 labels deep scores below zero, so `Match` accepts a host that
  `Specificity` calls unmatched (`DomainSet.SpecificityVersusMatch`); valid host names get that
  deep (`RuleLines.DeepHostsAreGood`).
- Conflict detection lets two patterns tie on a host (`Ownership.PatternsMayTie`). On hosts of at most 99
  labels that is exactly when both match by pattern only, at the highest priority that does, and
  nothing matches by name (`Ownership.TieIff`); the tie goes to the least slug, whatever order the
  services were read in (`Determinism.TieGoesToLeastSlug`, `Determinism.CompileIgnoresOrder`).
- A node that does not carry the winner of a rule may hold a tie of lower claimants
  (`Ownership.LowerClaimantsMayTie`), exactly when the list it carries would not pass the check
  on its own (`Ownership.AcceptedIffNoTies`, for names).
- An egress member whose node is not an egress node is compiled as a target whose relay
  allows nothing (`SourceOfTruth.OwnedHostsAreAllowed`).
- The limiter's forgetting can be observed, and lets a client exceed burst plus rate, exactly
  when burst > 300 qps (`Limiter.ForgettingVisibleIff`, `Limiter.WindowBoundIff`).
- A push that the panel gives up and that is delivered all the same leaves its revision
  deploying for good, with its node running it (`Sticking.LostAnswerSticks`).
- Two calls that count the rows of one revision and write their verdicts in the opposite order leave
  it partially active with every row applied, and polling does not mend it
  (`Sticking.StaleVerdictSticks`).
- So polling is not sure to activate a deploying revision. With no call under way, and lagging nodes that are
  polled and accept their artifacts, every polling run that comes to rest leaves it active exactly when:
  every row not applied belongs to a target that lags, and no row failed or only one target lags,
  and no other revision has a target that lags and could be activated by polling, which would
  supersede it (`Mending.PollingActivatesIff`; `Mending.PollingMayActivateIff` says when some run does).
- Two calls that reconcile two fully applied revisions side by side can leave neither active
  (`Reconciling.BothLost`): after any run that has finished superseding, none is active exactly when the
  revision promoted last was retired after that (`Reconciling.NoneActiveIff`).
- After a crash between switching the active link and saving its state, the agent acknowledges the old revision
  while the new one is active (`AgentCore.CrashBreaksAgreementIff`, `AgentCore.StaleAck`).
- Rejecting the active rule version leaves it served with no version of status active
  (`RuleVersions.ActiveUnlessRejected`, `RuleVersions.RejectedIsStillServed`).
- A failed read of the active rule list is ignored. A build then replaces the list without approval
  exactly when it is not taken for unchanged, every source answered, the new list is not empty or the
  mode is automatic, and its length is within the threshold for additions
  (`RuleVersions.UnreadActivatesIff`). The comment at `panel/internal/rules/pipeline.go:187` promises otherwise.
- A session can be refused although none is admitted (`Admission.SpuriousRefusal`).

The comment at `panel/internal/compiler/compile.go:1-3` says DNS, proxy and relay can never
diverge. `SourceOfTruth` proves it for the services of one configuration, with the egress role as the one condition.

## Model

| member | source | states |
|---|---|---|
| DomainSet.NewSet | shared/domainset/matcher.go:16-30 | the matcher artifact holds each kind's values in list order |
| DomainSet.CompileSet | shared/domainset/matcher.go:39-60 | the runtime matcher indexes exact and suffix values and drops the patterns that do not compile |
| DomainSet.Match | shared/domainset/matcher.go:63-87 | true exactly when the host is non-empty and is an exact value, equals or ends at a label boundary in a suffix value, or is accepted by a pattern |
| DomainSet.Specificity | shared/domainset/matcher.go:91-116 | the stripping loop computes the specification score |
| DomainSet.HitDepthIsLongest | shared/domainset/matcher.go:91-116 | the loop's depth identifies the longest matching suffix by its label count, and there is one exactly when the depth is not negative |
| DomainSet.SpecificityMeaning | shared/domainset/matcher.go:91-116 | exact scores 1000, a suffix 100 less the labels above its longest hit, a pattern 1, nothing -1 |
| DomainSet.SpecificityVersusMatch | shared/domainset/matcher.go:63-116 | score and match agree on a host exactly when it is empty, an exact value, or no suffix hit is deeper than 100 |
| DomainSet.DeepSuffixHitScoresNegative | shared/domainset/matcher.go:91-116 | a concrete host 101 labels above a two-label suffix matches and scores -1 |
| DomainSet.SpecificityIffMatch | shared/domainset/matcher.go:63-116 | on hosts of at most 101 labels the score is non-negative exactly when the host matches |
| DomainSet.MatcherRefinesRule | shared/domainset/matcher.go:16-87 | compiling a rule list to the index and matching gives, for every host, what the plain rule over the list gives |
| RuleList.SuffixHit | shared/domainset/domainset.go:244-255 | true exactly when the host lies at or below some suffix of the set |
| RuleList.Merge | shared/domainset/domainset.go:217-242 | strictly sorted, holding exactly the includes that are not excluded by name nor exact entries below an excluded suffix |
| RuleList.CanonicalUnique | shared/domainset/domainset.go:208-242 | a strictly sorted list is determined by its set of entries |
| RuleList.MergeDependsOnSets | shared/domainset/domainset.go:217-242 | the merge depends on the sets of includes and excludes only, not on order or repetition |
| RuleList.MergeIdempotent | shared/domainset/domainset.go:217-242 | merging a merged list again changes nothing |
| RuleList.MergePreservesCovers | shared/domainset/domainset.go:217-242 | without excludes the merged list covers exactly the hosts the list covered |
| RuleList.MergeLosesOnlyExcluded | shared/domainset/domainset.go:217-242 | a covered host loses its cover exactly when every entry covering it was excluded by name or as an exact entry below an excluded suffix |
| RuleList.Diff | shared/domainset/domainset.go:278-299 | the sorted entries the new list adds and the old one loses |
| RuleList.DiffIsAPatch | shared/domainset/domainset.go:278-299 | (old - removed) + added is new; added is disjoint from old and removed part of it |
| RuleList.DiffCounts | shared/domainset/domainset.go:278-299 | on duplicate-free lists the counts balance |
| RuleList.HashInput | shared/domainset/domainset.go:258-267 | the bytes written to the hash are the encoding of the list |
| RuleList.EncodeAppends | shared/domainset/domainset.go:258-267 | the encoding is one record for each entry in order: kind, NUL, value, newline |
| RuleList.EncodeInjective | shared/domainset/domainset.go:258-267 | on kinds without NUL and values without newline, equal encodings mean equal lists |
| RuleList.NewlineBreaksEncoding | shared/domainset/domainset.go:258-267 | why that excludes newlines: two different lists, one with a newline in a value, share an encoding |
| RuleLines.ValidateHost | shared/domainset/domainset.go:58-84 | the scan accepts exactly the good hosts |
| RuleLines.HostGrammar | shared/domainset/domainset.go:58-84 | good hosts are exactly two or more labels of 1 to 63 host characters without a hyphen at either end, joined by dots, of at most 253 characters |
| RuleLines.HostLabels | shared/domainset/domainset.go:58-84 | a good host has at most 127 labels |
| RuleLines.DeepHostsAreGood | shared/domainset/matcher.go:100-101 | good hosts of 103 to 127 labels below a good suffix are covered by the rule and score negative |
| RuleLines.NormalizeIdempotent | shared/domainset/domainset.go:35-56 | a normalised host is good and normalises to itself |
| RuleLines.ParsedShape | shared/domainset/domainset.go:152-192 | whatever parses is a good host of a host kind, or a short compiling pattern where patterns are allowed |
| RuleLines.RuleRoundTrip | shared/domainset/domainset.go:152-192 | a host rule written out parses to itself |
| RuleLines.ParseLines | shared/domainset/domainset.go:101-143 | succeeds exactly when the distinct rules fit the limit, and then returns them strictly sorted with the number of lines skipped; otherwise the rules of the leading lines that hold one more than the limit, each once |
| RuleLines.ParsedListsDiffer | shared/domainset/domainset.go:101-143 | no rule parsed from text holds a newline, so two parsed lists share a hash input exactly when they are the same |
| RuleLines.ListRoundTrip | shared/domainset/domainset.go:101-143 | a canonical list of host rules written one per line is what parsing the text returns |
| RuleForms.MarkedRule | shared/domainset/domainset.go:152-178 | behind a marker in any letter case: domain-suffix:, suffix: and domain: give the suffix of the name, full: and domain-full: the name itself, keywords are refused, and the three regex markers give the pattern where patterns are allowed and it is short and compiles |
| RuleForms.UnmarkedRule | shared/domainset/domainset.go:178-192 | without a marker: *., . and +. before a name give its suffix, other wildcards are refused, and a bare name stands for itself |
| RuleForms.NameMeaning | shared/domainset/domainset.go:35-56 | white space around a name and one dot behind it do not count; what is left goes through IDNA and lower case and must be a good host |
| RuleForms.CommentLine | shared/domainset/domainset.go:108-113 | lines beginning with #, ! or // hold no rule |
| RuleForms.RuleLine | shared/domainset/domainset.go:108-123 | on any other line the text up to a comment is the rule, or the name behind one of the three addresses of a hosts file |
| Conflicts.TopOwners | panel/internal/compiler/compile.go:333-344 | the highest priority claimed and the slugs of the claims at it, in order; more than one exactly when that priority is shared |
| Conflicts.CollectClaims | panel/internal/compiler/compile.go:318-327 | the claim table lists for each entry its claims in service order |
| Conflicts.FindTies | panel/internal/compiler/compile.go:328-349 | an entry is reported, once, exactly when its top priority is shared, with that priority and the sorted slugs of the claims at it |
| Conflicts.DetectConflicts | panel/internal/compiler/compile.go:317-355 | the entries two of whose claims share the top priority are reported once each, sorted by value, with that priority and the sorted slugs of the claims at it (`CompiledMeaning.ConflictMeaning` says what those are); nothing is reported exactly when no entry is so shared |
| Compiler.CollectAddresses | panel/internal/compiler/compile.go:146-158 | the public addresses of the eligible known ingress nodes, in list order |
| Compiler.CollectTargets | panel/internal/compiler/compile.go:165-192 | the usable members become targets in order, and exactly those nodes are granted the service's entries and ports |
| Compiler.CompileServices | panel/internal/compiler/compile.go:142-219 | succeeds exactly when every service has a usable egress member, and then gives each service its compiled form, with its own slug and priority (the rest is in `CompiledMeaning.ServiceMeaning`), and grants each node the union over the services targeting it; otherwise the error names the first service without one |
| Compiler.ServicesForIngress | panel/internal/compiler/compile.go:299-315 | the compiled services whose slug an input service lists for the node, in order |
| Compiler.SortedPorts | panel/internal/compiler/compile.go:241-245 | the port set as a strictly ascending list |
| Compiler.CompileNodes | panel/internal/compiler/compile.go:223-267 | succeeds exactly when every role is known, with one configuration per node id |
| Compiler.Compile | panel/internal/compiler/compile.go:116-294 | succeeds exactly on compilable inputs, and the result is then a compilation of the input; a missing target is reported for the first service that lacks one. `CompiledMeaning.CompilableMeaning`, `CompiledMeaning.ConfigMeaning`, `CompiledOwners.IngressRows` and `CompiledMeaning.AllowlistMeaning` say both in terms of the input alone |
| CompiledMeaning.CompilableMeaning | panel/internal/compiler/compile.go:116-267 | what compiles: a revision id, no rule listed twice at the highest priority that lists it, in every service a member whose node is registered, eligible and reachable, and no role but ingress and egress |
| CompiledMeaning.ConflictMeaning | panel/internal/compiler/compile.go:328-349 | a conflict names the highest priority at which its rule is listed and, sorted, the slug of every service listing it there, once for each listing |
| CompiledMeaning.NodeTableMeaning | panel/internal/compiler/compile.go:120-123 | the node table holds for every id the last row with it |
| CompiledMeaning.ServiceMeaning | panel/internal/compiler/compile.go:142-219 | a compiled service has its input's slug, name, priority, rules and hash, the TTL kept within 30 and 300, its listed ports sorted or 443 when none is listed, the defaults of mode, UDP mode, thresholds and interval where unset, one target for every reachable eligible member, with the endpoint and name of its node, by priority and then list order, and the sorted addresses of its eligible listed nodes |
| CompiledMeaning.ConfigMeaning | panel/internal/compiler/compile.go:222-267 | there is one configuration for every registered node, with its id, name and role, the revision and sequence, DNS and ingress settings for an ingress (AAAA only with an IPv6 address) and tuning, and private destinations in lab mode only, for an egress, and the notes that go with them |
| CompiledMeaning.AllowlistMeaning | panel/internal/compiler/compile.go:236-252 | an egress allowlist covers exactly the hosts, and opens exactly the ports, of the services with a member on that node; a service without ports opens 443 |
| CompiledOwners.IngressRows | panel/internal/compiler/compile.go:223-233 | with distinct slugs an ingress node has one row for every service that lists it, with that service's particulars, in the order of the slugs |
| CompiledOwners.OwnerIsBestListed | panel/internal/compiler/compile.go:207-219 | on a compiled ingress no service owns a host exactly when none that lists the node matches it by its own entries; otherwise the owner is the one that matches best, then has the highest input priority, then the least slug, of all that list the node |
| CompiledOwners.CompiledUniqueOwner | panel/internal/compiler/compile.go:317-355 | if the services listing an ingress pass the conflict check, a host of at most 99 labels best matched by name has one best row in its compiled configuration |
| CompiledOwners.CompiledOwnerIgnoresOrder | node/dnsfe/router.go:68-84 | for such hosts every order of the configuration's rows gives the same owner |
| Routing.BestIsOwner | node/dnsfe/router.go:68-84 | the loop's best row is an owner: it matches and no matching row beats it on (specificity, priority) |
| Routing.OwnerUnique | node/dnsfe/router.go:68-84 | a table and a host determine the owner, the first of the best |
| Routing.Router.constructor | node/dnsfe/router.go:31-36 | the table is built from the configuration's services |
| Routing.Router.Apply | node/dnsfe/router.go:38-58 | the table is replaced by the one built from the configuration's services |
| Routing.Router.Lookup | node/dnsfe/router.go:68-84 | the owner of the host, or none exactly when no row matches |
| Routing.Proxy.Apply | node/proxy/proxy.go:64-87 | routes are replaced, the session limit is the configured one or 10000, and each service's new pool takes for each node the verdict and latency of the last target of that node in the old pool of the same slug, or starts healthy and unmeasured |
| Routing.Proxy.Lookup | node/proxy/proxy.go:89-105 | the owner of the host by the same relation as the DNS table |
| Routing.Proxy.Decide | node/proxy/proxy.go:177-204 | a connection is proxied only to the host's owner on a port it allows; without an owner it goes to the DoH listener exactly when it asks for the DoH host and there is a listener, and is refused otherwise |
| Routing.PortAllowed | node/proxy/proxy.go:278-288 | a listed port, or 443 when none is listed |
| Routing.Relay.Apply | node/relay/relay.go:50-83 | allowlist and ports are those of the configuration, 443 when none is listed, and the session limit the configured one or 10000 |
| Routing.Relay.Allowed | node/relay/relay.go:85-89 | true exactly when the port is in the allowed set and the allowlist covers the host |
| Ownership.UniqueOwner | panel/internal/compiler/compile.go:317-355 | in an accepted service list at most one service maximises (specificity, priority) on a host of at most 99 labels whose best hit is exact or suffix |
| Ownership.OwnerIgnoresOrder | node/dnsfe/router.go:68-84 | for such hosts every permutation of the list gives the same owner |
| Ownership.TieIff | node/dnsfe/router.go:68-84 | in an accepted list two rows tie on a host of at most 99 labels exactly when both match by pattern only, at the highest priority that does, and no row matches by name |
| Ownership.AnyTieIff | node/dnsfe/router.go:68-84 | in any list, accepted or not, two rows tie on a host of at most 99 labels exactly when they share the deciding named entry and the priority and no row scores higher or lists that entry with a higher priority, or when they tie by patterns |
| Ownership.AcceptedIffNoTies | panel/internal/compiler/compile.go:317-355 | for any list of services with names of at most 98 labels, each listed once by a service: it passes the conflict check exactly when no host of at most 99 labels has two best rows |
| Ownership.PatternsMayTie | node/dnsfe/router.go:68-84 | two accepted services with patterns of equal priority tie, and the first row is the owner |
| Ownership.LowerClaimantsMayTie | panel/internal/compiler/compile.go:333-348 | an accepted list whose two lower claimants, a list that would not be accepted, tie on a node that carries only them |
| Determinism.CompileIgnoresOrder | panel/internal/compiler/compile.go:142-267 | with distinct slugs, two compilations of the same services in any two orders are the same configurations for every node |
| Determinism.CompilableIgnoresOrder | panel/internal/compiler/compile.go:116-140 | whether an input compiles does not depend on the order of its services |
| Determinism.TieGoesToLeastSlug | panel/internal/compiler/compile.go:219-220 | of the best rows for a host on an ingress node the owner is the one with the least slug |
| Validation.Validate | agent/internal/agentcore/agent.go:333-364 | no error exactly when the configuration is acceptable for this node and role; which error comes first for a foreign schema, node or role, and the service blamed otherwise |
| SourceOfTruth.IngressServices | panel/internal/compiler/compile.go:207-233 | an ingress configuration holds exactly the compiled services the node carries |
| SourceOfTruth.CarriesIffListed | panel/internal/compiler/compile.go:299-315 | with distinct slugs a node carries exactly the services that list it |
| SourceOfTruth.RelayAllowsExactly | node/relay/relay.go:50-89 | a relay lets a host and port through exactly when some service targeting it covers the host and some service targeting it opens the port |
| SourceOfTruth.SameOwnerEverywhere | node/proxy/proxy.go:64-105 | a router and a proxy that apply one configuration, whatever they ran before, answer every host alike, with its owner |
| SourceOfTruth.OwnedHostsAreAllowed | panel/internal/compiler/compile.go:142-267 | an owned host's service has targets, each with a compiled configuration that lets the host through on each of its ports exactly when its node is an egress |
| SourceOfTruth.IngressArtifactAccepted | agent/internal/agentcore/agent.go:343-355 | an ingress artifact passes exactly when the node carries a service and every carried service has an eligible ingress with an address |
| SourceOfTruth.EgressArtifactAccepted | agent/internal/agentcore/agent.go:356-359 | an egress artifact passes exactly when some service targets the node |
| SourceOfTruth.ArtifactIsAddressed | agent/internal/agentcore/agent.go:333-342 | an agent accepts a compiled artifact only for its own id and role, an empty one not being compared |
| Health.Target.Note | node/proxy/selector.go:44-74 | one observation updates the verdict, both counters and the moving average as specified |
| Health.CountersAreRuns | node/proxy/selector.go:44-74 | the counters are the lengths of the current runs of failures and successes |
| Health.HealthIsHysteresis | node/proxy/selector.go:44-74 | after any history a target is unhealthy exactly when it was, or became so by `fail` failures in a row, and `rise` successes in a row have not followed |
| Health.LatencyWithinSamples | node/proxy/selector.go:49-56 | the moving average stays within the range of the samples seen |
| Health.LatencyApproaches | node/proxy/selector.go:49-56 | the first sample is taken as it is, every further one leaves 0.7 of the distance to it, and failures leave the average alone |
| Ordering.PickOfPicks | node/proxy/selector.go:207-219 | every draw falls into exactly one position's interval, and that is the position picked |
| Ordering.DrawsPerPosition | node/proxy/selector.go:195-224 | the number of draws that pick a position is exactly its effective weight |
| Ordering.ShuffledIsPermutation | node/proxy/selector.go:195-224 | for all draws the weighted order is a permutation of the candidates |
| Ordering.ByLatencyIsPermutation | node/proxy/selector.go:139-193 | the latency order is a permutation of the candidates |
| Ordering.StickyHead | node/proxy/selector.go:155-193 | the head is the preferred target, which changes only when unset, absent, or beaten by both margins, and then to the fastest |
| Ordering.StickySettles | node/proxy/selector.go:155-193 | with fixed latencies the second choice repeats the first |
| Ordering.AtMostOneSwitch | node/proxy/selector.go:155-193 | with fixed latencies and candidates at most one switch ever happens, however often the order is asked for |
| Ordering.OrderIsComplete | node/proxy/selector.go:114-137 | outside manual_fixed every target comes once, healthy before unhealthy; by latency, where no node is listed twice |
| Ordering.ManualFixedOrder | node/proxy/selector.go:128-131 | manual_fixed keeps the first healthy target and every unhealthy one |
| PoolOrder.WeightedOrder | node/proxy/selector.go:195-224 | in weighted mode each healthy place goes to the target in whose stretch the round's number falls, the stretches of those left lying end to end with their weights, at least 1, as lengths; then come the unhealthy targets in pool order |
| PoolOrder.WeightedShare | node/proxy/selector.go:195-224 | exactly as many of the possible first numbers put a healthy target first as its weight, or 1 |
| PoolOrder.LatencyOrder | node/proxy/selector.go:139-193 | in lowest_latency mode with two healthy targets or more: if none is sticky, the sticky one is not healthy, or a fastest one beats it by both margins (20 percent and 20 ms unless set), all follow by latency and the first becomes sticky; otherwise the sticky one stays, comes first, and the others follow by latency, unmeasured ones last |
| PoolOrder.OrderMeaning | node/proxy/selector.go:114-137 | what the order and the sticky target are in each of the four modes |
| Selector.ContainsText | node/proxy/selector.go:292-301 | true exactly when the text occurs |
| Selector.PickByWeight | node/proxy/selector.go:207-219 | the scanning loop picks the position the draw falls to |
| Selector.WeightedShuffle | node/proxy/selector.go:195-224 | the loop over rounds computes the weighted order |
| Selector.OrderByLatency | node/proxy/selector.go:139-193 | order and preferred target as specified |
| Selector.Pool.constructor | node/proxy/selector.go:84-100 | every target of the policy once, the smallest priority number first and equals in list order, each with the verdict and latency of the last previous target of its node or healthy and unmeasured, counters at zero |
| Selector.Pool.Order | node/proxy/selector.go:114-137 | the order and sticky target are those of the mode, in terms of the targets, draws and latencies themselves (`PoolOrder.OrderTells`), and nothing else changes |
| Selector.Pool.Dial | node/proxy/selector.go:252-286 | the specified result and observations for that order, with thresholds 3 and 2 unless set |
| Selector.Pool.Probe | node/proxy/selector.go:228-249 | every target is observed once, in order, with thresholds 3 and 2 unless set |
| Failover.DialMeaning | node/proxy/selector.go:252-286 | a dial tries its targets in turn until one connects or refuses by policy, or all have failed and the last error is reported; each failure before and the success go into that target's record, a refusal into none, and no other record changes |
| Failover.RefusalKeepsHealth | node/proxy/selector.go:277-281 | a target whose relay refuses by policy keeps its whole health record |
| Failover.WorkingCandidateConnects | node/proxy/selector.go:255-286 | if a candidate connects and none refuses, the dial succeeds |
| Failover.FailoverTheorem | node/proxy/selector.go:252-286 | with a working healthy standby and no refusal every dial of every run of dials one after the other succeeds, and a target that always fails is tried first at most as often as its remaining failures to the threshold |
| Failover.FreshPrimaryBound | node/proxy/selector.go:102-137 | from a fresh record that is at most the fail threshold, 3 unless set |
| Failover.FallbackIsDefaultOrder | node/proxy/selector.go:114-137 | every mode outside the three special ones orders healthy before unhealthy by priority and leaves the preferred target alone |
| Dialing.OverlappingFailover | node/proxy/selector.go:252-286 | with up to k dials at once, in every interleaving of their attempts and of probes, no dial runs out of targets and the failing target is tried first at most k - 1 times more |
| Dialing.OrdersAreOffered | node/proxy/selector.go:114-137 | every order given outside manual_fixed while the standby is healthy is one such a dial may start with |
| Limiter.Limiter.Configure | node/dnsfe/limiter.go:31-41 | settings as configured, 100 per second and five times the rate where unset, buckets kept |
| Limiter.Limiter.Allow | node/dnsfe/limiter.go:55-82 | decision and buckets as specified, collecting idle buckets at most once a period; `Admittance.AdmittedIff` says which queries that admits and `Admittance.RefusalsAreFree` that a refusal costs nothing |
| Limiter.Limiter.Gc | node/dnsfe/limiter.go:84-90 | exactly the idle buckets go |
| Limiter.ForgettingIsInvisible | node/dnsfe/limiter.go:55-90 | with burst at most 300 qps in every configuration the limiter decides every query as one that never deletes a bucket |
| Limiter.ForgettingVisibleIff | node/dnsfe/limiter.go:84-90 | some queries tell the two apart exactly when burst exceeds 300 qps |
| Limiter.WindowBound | node/dnsfe/limiter.go:55-90 | with fixed settings whose burst is at most 300 qps, from any state, a key is admitted at most burst + qps times the length of any window |
| Limiter.WindowBoundIff | node/dnsfe/limiter.go:84-90 | every run from a fresh limiter keeps to that bound exactly when burst is at most 300 qps |
| Limiter.SpacedNeverRefused | node/dnsfe/limiter.go:55-82 | a key whose requests are at least 1/qps apart is never refused |
| Admittance.AdmittedIff | node/dnsfe/limiter.go:55-82 | with fixed settings whose burst is at most 300 qps, in every run from a fresh limiter: a query with a valid address is admitted exactly when, counted from every earlier query of its key on, those admitted and this one are at most burst plus rate times the time since |
| Admittance.RefusalsAreFree | node/dnsfe/limiter.go:72-80 | taking a refused query out of such a run changes no other answer |
| Streams.Reader.ReadFull | shared/tunnel/tunnel.go:67-70 | in whatever pieces the bytes arrive, exactly the next n are read, or all there were |
| ClientHello.ParseSni | shared/sniff/clienthello.go:99-122 | the loop computes the specified result on every input, in bounds |
| ClientHello.ParseClientHello | shared/sniff/clienthello.go:46-97 | the loop computes the specified result on every input, in bounds |
| ClientHello.PeekSni | shared/sniff/clienthello.go:22-44 | result, bytes returned and bytes consumed are those specified, for every chunking |
| ClientHello.ParserAcceptsGrammar | shared/sniff/clienthello.go:46-144 | every serialised ClientHello that fits, with any extensions and names before the host name, parses to its host name |
| ClientHello.GrammarCoversParser | shared/sniff/clienthello.go:46-144 | every body that parses is the serialisation of a ClientHello with that host name |
| ClientHello.ParserIffGrammar | shared/sniff/clienthello.go:46-144 | a body parses to a host name exactly when it serialises such a ClientHello |
| ClientHello.PeekReadsRecord | shared/sniff/clienthello.go:22-44 | on a record within the limit followed by anything, the lower-cased name and exactly the record are returned, and the rest is unread |
| ClientHello.PeekSuccessIsRecord | shared/sniff/clienthello.go:22-44 | success means the bytes consumed are such a record and are what is returned |
| ClientHello.PeekInBounds | shared/sniff/clienthello.go:22-44 | on every input no more than header and limit are consumed, and what is returned is a prefix of the input |
| Tunnel.ReadConnect | shared/tunnel/tunnel.go:63-83 | destination or error, and bytes consumed, as specified, for every chunking |
| Tunnel.WriteConnect | shared/tunnel/tunnel.go:38-60 | sends at most the frame, succeeds exactly on the OK byte after the whole frame, and consumes just that byte; reading fails only when nothing arrived, and after a failed write nothing is read |
| Tunnel.FrameRoundTrip | shared/tunnel/tunnel.go:38-83 | reading a written frame gives host and 16-bit port and consumes exactly the frame, whatever follows |
| Tunnel.AcceptedIsFrame | shared/tunnel/tunnel.go:63-83 | whatever is accepted is the frame of what was read |
| Tunnel.FrameUnique | shared/tunnel/tunnel.go:38-83 | no shorter or longer prefix of a frame and what follows it is accepted as a frame |
| WireBytes.FrameBytes | shared/tunnel/tunnel.go:38-47 | the bytes of a frame: 1, 1, the length, the host, and the port's low 16 bits with the high byte first |
| WireBytes.FrameAcceptedIff | shared/tunnel/tunnel.go:63-83 | what is accepted as a frame, byte by byte, and what is refused as a protocol error |
| WireBytes.RecordBytes | shared/sniff/clienthello.go:22-44 | the bytes of a record: 22, 3, the minor version, the length with the high byte first, the body |
| WireBytes.HelloBytes | shared/sniff/clienthello.go:46-66 | where type, length, version and random, and session id of a serialised ClientHello stand |
| WireBytes.HelloRefused | shared/sniff/clienthello.go:46-66 | a body is no ClientHello exactly when it is shorter than 4 bytes or not of type 1, and one cut short or too short for version and random is incomplete |
| WireBytes.PeekRefuses | shared/sniff/clienthello.go:22-44 | for every stream: too short, not a handshake record, empty or over the limit (16384 unless set), cut short, or read whole, with the bytes returned and consumed |
| Tunnel.RefusalStatuses | node/proxy/selector.go:288-290 | a relay's refusal counts as policy exactly for the denied and resolution statuses |
| Tunnel.CopyLoop | shared/tunnel/tunnel.go:113-133 | what is written is a prefix of what was there, counted exactly, and all of it unless a write failed |
| Passthrough.BytesPassThrough | node/proxy/proxy.go:206-222 | in every interleaving of partial reads, writes, errors and closes, an origin that speaks before the status byte included, the origin has a prefix of what the client sent and the client a prefix of what the origin sent, after the status byte |
| Passthrough.CountersAreDeliveries | shared/tunnel/tunnel.go:111-148 | the copy counters are the bytes delivered, less the replayed record and the status byte |
| Passthrough.NothingIsLost | node/relay/relay.go:131-196 | once the lanes have drained, both ends have exactly what the other sent |
| Passthrough.ReplayedRecordIsSniffed | node/proxy/proxy.go:171-217 | while splicing the tunnel holds the frame and then exactly the record that was sniffed |
| Passthrough.ConnectsToTheNameSniffed | node/proxy/proxy.go:171-206 | a relay that has read its frame connects to the normalised name of a record the client's bytes begin with, and while the ingress holds a record it is that one |
| Panel.Store.RecordPush | panel/internal/api/dispatch.go:107-117 | exactly the one row is written |
| Panel.Store.CountRows | panel/internal/api/revisions.go:429-436 | the numbers of rows in all, applied and failed |
| Panel.Store.Reconcile | panel/internal/api/revisions.go:423-455 | the revision takes its verdict, and if active all others are superseded |
| Panel.Store.StartRollout | panel/internal/api/revisions.go:337-396 | refused exactly on unknown, failed or empty revisions, and then changes nothing; otherwise the revision is deploying, the row of every node with an artifact pending and its goal set, and every other row and state as before |
| Panel.Store.Rollback | panel/internal/api/revisions.go:398-420 | rolls out the restorable revision activated last and marks the other rolled back, so that no rollback can return to that one next; or changes nothing |
| Panel.ActiveMeansAllApplied | panel/internal/api/revisions.go:437-447 | the counts call a revision active exactly when it has rows and all are applied |
| Panel.PendingMeansNoVerdict | panel/internal/api/revisions.go:437-447 | while a row is pending nothing changes |
| Panel.VerdictMeaning | panel/internal/api/revisions.go:437-447 | the verdict from the rows: none while there are no rows or one is pending, active when all applied, failed when all failed, else partially active |
| Rollout.StepKeepsInv | panel/internal/api/dispatch.go:68-187 | every step, including late deliveries and abandoned calls, keeps the protocol's invariant |
| Rollout.RolloutSafety | panel/internal/api/dispatch.go:89-105 | in every run nodes run only artifacts stored for them, every node of an active revision has applied and acknowledged it, and while no call is between promoting and superseding at most one is active |
| Reconciling.ActiveIff | panel/internal/api/revisions.go:448-454 | after every run the active revisions are exactly those promoted, or active at its start, that no superseding, rollout, rollback or other verdict has retired since |
| Reconciling.NoneActiveIff | panel/internal/api/revisions.go:448-454 | after every run with no call left to supersede, none is active exactly when the revision promoted last was retired after that |
| Reconciling.BothLost | panel/internal/api/revisions.go:423-455 | a run from the empty panel that ends with two revisions fully applied, no call under way and none active |
| RollingBack.CandidateIff | panel/internal/api/revisions.go:398-414 | after any run from the empty panel the revisions a rollback may choose are those activated, wholly or partially, and since then neither marked rolled back, rolled out again, nor failed everywhere |
| RollingBack.RolledBackIsNotReturnedTo | panel/internal/api/revisions.go:403-413 | in no run does a rollback return to a revision after it was marked rolled back, unless it was activated again in between |
| RollingBack.ActivatedAtFirst | panel/internal/api/revisions.go:448-451 | a revision has an activation time exactly when it was activated, wholly or partially, and it is that of the first time |
| RollingBack.ReturnsToLatest | panel/internal/api/revisions.go:403-406 | in every run a rollback returns to another revision than the one it leaves, to the candidate whose first activation was the latest |
| Convergence.QuietRunsSettle | panel/internal/api/dispatch.go:24-187 | in every run of overlapping pushes and polls that starts and ends with no call, without new rollouts or calls given up, a node that was settled, received a call, or was polled while not behind runs its goal at the end, and the table says so |
| Convergence.CalmRunsSettle | panel/internal/api/dispatch.go:24-187 | in every run of overlapping pushes and polls, with any calls given up, lost, late or without target, a node is behind at the end exactly when it was and accepted no call; one that was settled, or was polled or reported when not behind, is settled |
| Activation.PushesActivateIff | panel/internal/api/revisions.go:423-455 | after every interleaving of pushes of any revisions that starts and ends with no call under way: for each revision exactly the nodes called for it have turned applied; unless another supersedes it or an outdated verdict is written its state is active if every row was applied or called, else partially active, or as before if nobody was called or a pending row left out |
| Activation.CleanIsCurrent | panel/internal/api/revisions.go:429-448 | while no row of the revision failed, no verdict written is outdated, in whatever order calls count and write |
| Activation.RolloutActivates | panel/internal/api/dispatch.go:68-105 | pushing a deploying revision none of whose rows failed, in every interleaving that answers every call and in which no other revision supersedes it, activates it exactly when every row not applied has its node called |
| Activation.OnlyRivalsDisturb | panel/internal/api/revisions.go:448-454 | in such a run a revision is superseded only if another was called and had every row applied or called |
| Polling.PollingLeavesActiveIff | panel/internal/api/dispatch.go:146-187 | after every polling run, of any goals, to a state with no call under way in which no target lags: the rows of the targets that lagged are applied and the others as before; the state follows from the tables before, unless another revision supersedes it or an outdated verdict is written |
| Polling.SettledRunRests | panel/internal/api/dispatch.go:177-185 | where every node is settled, every polling run pushes nothing and changes nothing |
| Mending.SurelyCurrent | panel/internal/api/revisions.go:429-448 | no polling run writes an outdated verdict where no row failed, or every row not applied is that of the one target that lags |
| Mending.CanGoWrong | panel/internal/api/revisions.go:429-448 | from every table where two targets lag, one with a failed row, and polling could activate the revision, a polling run ends with every row applied and the revision partially active |
| Mending.PollingActivatesIff | panel/internal/api/dispatch.go:122-187 | with no call under way and lagging nodes that are polled and accept, every polling run that comes to rest leaves the revision active exactly when no rival could be activated, and: nothing is to be pushed or a pending row is out of reach and it was active, or every row not applied belongs to a target that lags and no row failed or one target lags |
| Mending.PollingMayActivateIff | panel/internal/api/dispatch.go:122-187 | some such run activates an inactive revision exactly when a target lags and every row not applied belongs to one that does |
| Sticking.LostAnswerSticks | panel/internal/api/dispatch.go:95-104 | a run from the empty panel in which a call given up is delivered all the same: the only target runs the revision, and no polling run takes its row from failed or the revision from deploying |
| Sticking.StaleVerdictSticks | panel/internal/api/revisions.go:429-448 | a state reached from the empty panel in which two targets lag, one with a failed row, so that a polling run ends partially active with every row applied, and that no polling run changes |
| AgentCore.Agent.constructor | agent/internal/agentcore/agent.go:77-93 | a start takes the saved state for the applied one |
| AgentCore.Agent.HandleConfig | agent/internal/agentcore/agent.go:237-290 | for every outcome of every effect the disk and the state are those of the specified push; a rejected push changes neither and degrades the agent, and a push of what is applied changes nothing |
| AgentCore.Agent.PruneRevisions | agent/internal/agentcore/agent.go:368-400 | exactly the specified directories are removed |
| AgentCore.StepKeepsInv | agent/internal/agentcore/agent.go:237-290 | every effect, failure and crash keeps the invariant |
| AgentCore.ActiveIsValid | agent/internal/agentcore/agent.go:260-283 | in every run, with crashes anywhere, the active link once set stays set and names a directory holding a configuration that passed the check for this node |
| AgentCore.AgreeWithoutCrash | agent/internal/agentcore/agent.go:267-283 | without crashes, whatever fails, link and applied revision agree between pushes |
| AgentCore.PreviousIsKept | agent/internal/agentcore/agent.go:271-284 | without crashes and with the previous link moving, it names the revision applied before, which stays on disk |
| AgentCore.CrashBreaksAgreementIff | agent/internal/agentcore/agent.go:268-283 | with all saves done, a crash breaks the agreement exactly between the link's switch and the save of another revision |
| AgentCore.StaleAck | agent/internal/agentcore/agent.go:254-258 | a run after which the old revision is acknowledged untouched while the new one is active |
| AgentCore.PruneKeepsNewest | agent/internal/agentcore/agent.go:366-400 | applied and previous stay, of the others as many as there is room for and the newest, and at most max(keep, 2) remain |
| AgentCore.SwitchMeaning | agent/internal/agentcore/agent.go:237-290 | a push that switches leaves its configuration stored as sent and active, the revision active before behind the previous link, and memory and state file naming both |
| AgentCore.FailureMeaning | agent/internal/agentcore/agent.go:260-270 | a valid push that fails before the switch is not acknowledged and leaves memory, links, state file and every other directory as they were |
| AgentCore.PushKeepsNewest | agent/internal/agentcore/agent.go:284-400 | after such a push, when directories can be listed and removed, the new and the previously applied revision stay and of the others the newest, up to the number kept, 3 unless set |
| AgentCore.ScanOrderIsScan | agent/internal/agentcore/agent.go:379-389 | the sorted listing holds exactly the unprotected directories, newest first |
| AgentCore.HandledIsRun | agent/internal/agentcore/agent.go:237-290 | every uninterrupted push is a run of the step machine without crashes |
| AgentCore.AckMeansActive | agent/internal/agentcore/agent.go:292-301 | an agreeing agent acknowledges a revision only once it is the active one |
| RuleVersions.Builder.Load | panel/internal/rules/pipeline.go:112-153 | entries of the usable sources by side, in order, and whether any succeeded or failed |
| RuleVersions.Builder.Review | panel/internal/rules/pipeline.go:175-218 | the status the guards and the mode allow; `RuleUpdates.ReplacesIff` says in terms of sets when that is active |
| RuleVersions.Builder.Store | panel/internal/rules/pipeline.go:227-262 | the version is stored under the next sequence number, and an active one retires the others |
| RuleVersions.Builder.Build | panel/internal/rules/pipeline.go:95-270 | fails exactly when every source failed and the operator includes nothing, skips exactly when the hash is unchanged, else stores the merged list with the allowed status; `RuleUpdates.EffectiveMeaning` and `RuleUpdates.ReplacesIff` say which list, and when it replaces the one served |
| RuleVersions.Builder.NextSequence | panel/internal/rules/pipeline.go:227-231 | one more than the highest sequence |
| RuleVersions.Builder.Approve | panel/internal/rules/pipeline.go:273-300 | refused exactly on unknown and rejected versions, changing nothing; else the version becomes the one active, and one active before is superseded |
| RuleVersions.Builder.Reject | panel/internal/api/rulesets.go:350-358 | the version is rejected, whatever its status |
| RuleVersions.StatusMachine | panel/internal/rules/pipeline.go:249-300 | in every serial run only the active version has status active, the active version is active or was rejected, lists are canonical and sequences differ |
| RuleVersions.SequencesIncrease | panel/internal/rules/pipeline.go:227-239 | versions are never dropped or rewritten, and each new one has a higher sequence than all before |
| RuleVersions.ActiveUnlessRejected | panel/internal/api/rulesets.go:350-352 | a step leaves the active version with status active exactly when it does not reject that version |
| RuleVersions.RejectedIsStillServed | panel/internal/api/rulesets.go:350-352 | a rejected active version is still the one served, and none has status active |
| RuleVersions.ActivationIsGuarded | panel/internal/rules/pipeline.go:187-218 | an automatic activation that read a non-empty list keeps it non-empty and loses and adds no more than the thresholds allow |
| RuleVersions.UnreadActivatesIff | panel/internal/rules/pipeline.go:169-218 | when the old list cannot be read a build activates exactly when it is not unchanged by hash, every source answered, it is not empty or the mode is automatic, and its length is within the threshold for additions; it then replaces the list |
| RuleUpdates.EffectiveMeaning | panel/internal/rules/pipeline.go:112-163 | a build comes to the sorted list of exactly the rules some usable source or the operator includes, less those excluded by name and the exact names at or below an excluded suffix |
| RuleUpdates.ReplacesIff | panel/internal/rules/pipeline.go:166-262 | a build that could read the served list replaces it exactly when the hash differs, every source answered, it is not emptied, loses at most the allowed share and gains at most the allowed number, and either nothing was served and something is now or the mode applies changes by itself; otherwise what is served stays |
| RuleUpdates.ManualNeedsApproval | panel/internal/rules/pipeline.go:210-218 | in manual mode a non-empty served list is the one served after every run of builds that read it and rejections, without approvals |
| RuleVersions.AutomaticUpdate | panel/internal/rules/pipeline.go:193-218 | under the defaults at least 70% of the list stays and at most 1000 come in |
| RuleVersions.AutomaticRuns | panel/internal/rules/pipeline.go:193-218 | any run of k automatic updates never empties the list and grows it by at most 1000 k |
| RuleVersions.UnchangedMeansSame | panel/internal/rules/pipeline.go:166-185 | with a collision-free hash a build is unchanged exactly when it gives the active list |
| Admission.AdmissionSafety | node/proxy/proxy.go:159-167 | in every interleaving the counter is admitted plus judging plus refused handlers, zero when all are gone, and the admitted stay within the highest limit in force |
| Admission.FixedLimitHolds | node/relay/relay.go:105-113 | under a fixed limit the admitted never exceed it |
| Admission.RefusedIff | node/proxy/proxy.go:161-165 | whatever happens between a handler's increment and its comparison, it is refused exactly when the others present at the increment, refused ones included, were as many as the limit at the comparison |
| Admission.SpuriousRefusal | node/proxy/proxy.go:161-165 | a run that refuses a session while none is admitted |
| Admission.Drains | node/relay/relay.go:105-113 | from every reachable state the handlers present can finish, and then the counter is zero |
| Throttle.Throttle.Handle | shared/logging/logging.go:143-170 | outcome and map as specified |
| Throttle.KeyInjective | shared/logging/logging.go:147 | keys differ whenever level or message do |
| Throttle.Conservation | shared/logging/logging.go:149-169 | for every run and key each record is emitted, reported suppressed, pending, or was forgotten at a reset |
| Throttle.NothingIsForgotten | shared/logging/logging.go:149-169 | with at most 1024 keys none is forgotten |
| Throttle.FewKeysNoReset | shared/logging/logging.go:160-162 | with at most 1024 keys the map never starts afresh |
| Throttle.EmissionsAreSpaced | shared/logging/logging.go:150-163 | until the map starts afresh two emissions of a key are a window apart |
| Throttle.EmittedIff | shared/logging/logging.go:143-170 | until the map starts afresh a record is emitted exactly when it is at or above the level and its key was never emitted or a window or more before, and it reports how many of its key were handled and not accounted for |
| Throttle.MapIsBounded | shared/logging/logging.go:160-163 | the map never holds more than 1025 keys |
| Throttle.FullMapForgets | shared/logging/logging.go:160-163 | an immediate repeat is emitted again after another key's emission exactly when the map was overfull |

## Left out

- TLS, certificates, ACME, signatures, password hashing: foreign libraries; the relay's peer check is not modelled.
- IDNA, white space and lower case: parameters of `RuleLines.Text`, with the laws assumed in `RuleLines.Tame`; tables and matchers take hosts after normalisation.
- Letters outside ASCII whose lower case is ASCII shift the byte positions in prefixed rules; the model counts characters.
- The regular-expression engine: a parameter saying what compiles and what it accepts.
- JSON, SHA-256 and the canonical artifact bytes: an agent's decoding and hash are parameters, artifacts are opaque contents that name their revision.
- Fetching of rule sources: in `RuleVersions` a source is its parsed entries or a failure.
- Texts of parse warnings and errors: only the number of skipped lines and the kind of fault.
- Compiler warnings, summaries, the manifest and its signature: reports about the compiled configurations, not part of them.
- Settings passed through unchanged (DNS names, timeouts, log sinks): fields without influence on any decision modelled.
- `node/dnsfe/server.go` and answer building: per-branch facts over a DNS library.
- Client access lists and DoH tokens (`AllowClient`): independent membership tests.
- `shared/netguard`, resolution and address choice in the relay: one step that answers with a status.
- The limiter's key is the address prefix; how it is cut from an address is not modelled.
- Deadlines, idle timeouts and half-close: a read or write may fail or a side may close at any step.
- Floating-point rounding: latencies and tokens are real numbers.
- Locks: limiter, throttle, rule versions and the tables' methods change one call at a time; admission, the byte path, overlapping dials and the rollout are modelled with interleaving.
- The Go runtime's sort is any sort; where it is not stable the results hold for every order of equal elements or say which is used.
- Canary waves, error texts and health samples in the rollout tables: nothing reads them back.
- Deployment rows of state rolled_back: the code modelled never writes one.
- Deleting nodes and revisions while a rollout runs: rows and artifacts only grow in the model.
- Agents that crash: the rollout takes an agent as one that runs what it acknowledges, which `AgentCore.StaleAck` shows to fail after a crash at one point; the two machines are not composed.
- Panel restarts and failed statements: a call's steps may be delayed without bound but not skipped, except by giving the call up.
- A poll's answer and the row written from it are one step; written late it can leave the applied revision in the table behind until the next poll.
- Calls given up (`GiveUp`) and pushes without target (`NoTarget`) are steps of the protocol and of `Convergence.CalmRunsSettle`, but not of the runs `Activation`, `Polling` and `Mending` are about.
- Concurrent pushes to one agent: the handler does not serialise them, so pushes to one agent come one after the other.
- Agent file writes are all or nothing, and removing a directory may stop half way but leaves other directories alone.
- Revision ids with path separators: an id is one directory name; the empty id is the revisions directory itself.
- Directories whose details cannot be read while pruning: they are skipped by the code, and `AgentCore.PruneKeepsNewest` is about complete listings.
- Choosing the newest pending version when an approval names none: a lookup before the modelled call.
- Handlers derived from a throttle with extra attributes keep the old map after a reset of the original: the model is of one handler.
- The job queue, backups, the catalogue, sessions and the web interface: plumbing around the parts modelled.
- Admittance.AdmittedIff: fixed settings with burst at most 300 qps; above that forgetting changes answers, and exactly then (`Limiter.ForgettingVisibleIff`).
- Throttle.EmittedIff: until the map starts afresh; `Throttle.FullMapForgets` is about the record after that.
- AgentCore.PushKeepsNewest: listings and removals that work; which directories go when some fail is in `AgentCore.Agent.PruneRevisions`.
- Ownership.UniqueOwner: hosts of more than 99 labels are outside it, because a suffix can then score what a pattern does; `Determinism` covers them.
- Failover.FailoverTheorem: stated for the default order and dials one after the other; for other orders and overlapping dials see `Dialing.OverlappingFailover`.
- Routing.Proxy.Decide: the DoH forwarding itself is not modelled, only the decision for it.
- Activation.PushesActivateIff: its second half asks that no outdated verdict is written, because with one it fails (`Mending.CanGoWrong`); `Mending.PollingActivatesIff` has no such condition.
- Passthrough.ConnectsToTheNameSniffed: decoding, lower case and IDNA are parameters of the run; the port is the listener's.
