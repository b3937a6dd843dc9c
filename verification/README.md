# Verified model of the UDDI token calculator

Dafny models, with proofs, of the computational cores of the UDDI token calculator: what the NIOS
backup pipeline counts, how XaaS instances are packed, how a scan of many accounts survives crashes,
how events reach subscribers, and what the parsers and printers of the repository preserve. Methods
and classes follow code that changes things step by step; functions and lemmas say what that code
promises. `dafny verify dfyconfig.toml` checks the whole project.

## What is modelled

| files | subject |
|---|---|
| `NiosPass1`, `NiosTiers`, `NiosResolver`, `NiosEffects`, `NiosFamilies`, `NiosCounter`, `NiosLaws`, `NiosReport`, `Sums` | Two passes over a NIOS backup: member maps and the three-tier resolver, the fold of every object into counters and address sets, rows and metrics. What each family of objects and each tier must do, order independence, conservation from stream to report, longest-prefix match. |
| `XmlEntities`, `XmlStream`, `XmlRefinement`, `XmlAgreement`, `XmlFilter` | The byte scanner for object lists, line splitting included, refines the token parser; the exact condition on values under which the two agree, which objects the filter lets through, and the exact domain on which sequential entity replacement decodes correctly. |
| `SplunkQps`, `QpsMerge` | The Splunk export state machine computes maxima; peaks are merged into metrics whatever the map order. |
| `Packing`, `PackingOptimality`, `XaasInstances` | Next-fit packing of members into XaaS instances and the choice of tiers: bounds, exactly when the result is the fewest, a family for which it is not, and the figures for the published tiers and prices. |
| `Calculator`, `Aggregation` | Token calculation, and the display aggregation that preserves it. |
| `Checkpoint`, `OrgScan`, `OrgOutcomes` | Checkpoint file, worker semaphore and the crash-and-resume protocol of the organisation scan, as a step relation; exactly which runs are complete when the checkpoint is deleted. |
| `BrokerProtocol`, `Broker`, `ScanRun`, `ScanResults`, `ScanProgress` | Event broker with interleaving publishers, and the orchestrated run of all providers. |
| `ProjectDiscovery` | Breadth-first search of folders and projects. |
| `Backoff`, `MachineInt` | Exponential back-off in wrapping 64-bit integers. |
| `PgDump`, `PgRoundTrip` | Version-conditional pg_dump archive reader, and the round trip with a printer. |
| `TableCount`, `TableLaws` | Counting the rows of a table in a pg_dump data block. |
| `JsonText`, `SpecTable`, `SpecSerializers`, `SpecTwins` | Canonical JSON of the appliance table in Go and TypeScript, a reader for it, and when the two texts agree. |
| `Base` | Shared vocabulary: optional values, sequences, permutations. |

Conventions. Map iteration, unstable sorting, scheduling, crashes, failing writes and random jitter are
arbitrary choices, so what is proved holds for each of them. Address and number parsers, the DHCP
option table, display names, decompression and the answers of cloud services are parameters. Long
proofs hide function bodies they do not need with `hide`.

## Where the code and its documentation differ

- `frontend/src/app/components/nios-calc.ts:102` says "fewest possible XaaS instances". Next fit returns the
  fewest exactly when some fewest packing keeps the members in sorted order (FewestIff); members that fall into
  two halves and members of equal demand do (UpToTwoInstancesAreOptimal, EqualDemandsAreOptimal), an awkward
  quadruple does not (AwkwardIsNotFewest, AwkwardMembersCost). The number is always below 2S + 1 and at most
  eight times the optimum.
- `internal/scanner/aws/scanner.go:278` says the checkpoint is cleaned up "on full success". It is deleted
  whenever all accounts are done with; that is full success exactly when since the last start no unfinished
  account gave up and no scan failed (CompleteIff, CancelledRunLosesAnAccount).
- `internal/checkpoint/checkpoint.go` suggests a growing record; a resumed run starts an empty one, so its
  first save drops the units it resumed from (FirstSaveForgetsResumedUnits, SavedUnitsCanVanish). The final
  result is still right.
- `internal/scanner/nios/scanner.go:706-714` presents the byte scanner as a faster parser of the same files. The
  two agree on a value exactly when it mentions no markup reference and holds no line feed, carriage return or
  character that XML refuses (ParsersAgreeIff).
- `internal/scanner/nios/scanner.go:803` decodes entities one after the other; doubly escaped text is
  decoded once too often (SequentialDecodingIff gives the exact domain).
- `internal/calculator/calculator.go:70` promises a ceiling; for negative numerators truncation breaks it
  (CeilDivIsCeilingIff).
- `frontend/src/app/components/resource-savings.ts:665` says the output is byte-identical to Go's. It is,
  exactly when no string holds a backspace or a form feed (TextsAgreeIff); the meaning is the same always.
- `internal/cloudutil/retry.go:125` gives the ceiling as a minimum over the integers; the overflow guard
  achieves that exactly under CeilingIsMinimumIff's condition and can miss it otherwise (WrapCanShortenTheDelay).
- `internal/scanner/gcp/projects.go:150-175` keeps no visited set: its queue runs empty exactly when the folders
  form a finite tree with every listing answered (EndsCleanlyIff); otherwise only a refused listing ends the
  loop (OnlyRefusalsEndEarly, RefusalEndsWithoutTree).

## Model

| member | source | states |
|---|---|---|
| NiosLaws.OrderIndependent | internal/scanner/nios/counter.go:288-512 | Any permutation of the object stream gives the same counters, maps and address sets and the same multisets of option and host-route flags |
| NiosLaws.ApplyCommutes | internal/scanner/nios/counter.go:288-512 | Any two objects may be processed in either order, from any counts |
| NiosLaws.Conservation | internal/scanner/nios/counter.go:217-225 | For every stream gridDDI is the sum of the family counts and the sum of memberDDI plus unresolvedDDI, and each member's accumulator agrees with its own families |
| NiosLaws.GlobalAddressesAreMembers | internal/scanner/nios/counter.go:288-512 | With a virtual node and distinct identifiers, an address is in the grid's set exactly when it is in one of some member's two sets, leases are member addresses, and only members own accumulators |
| NiosLaws.EffectsStayInGrid | internal/scanner/nios/counter.go:288-512 | Every object's address and DDI count go to members, or to nobody with nothing |
| NiosCounter.CountResult.ProcessObject | internal/scanner/nios/counter.go:288-512 | The whole new state after one object of any family, both as the old state with that object's effect and, without that notion, as the family's law: which fields change, by how much and for which member |
| NiosFamilies.EffectObeys | internal/scanner/nios/counter.go:288-512 | Every object's effect obeys its family's law, for all 28 DDI families, leases, fixed and host addresses, options and discovery data |
| NiosCounter.CountResult.ProcessAll | internal/scanner/nios/scanner.go:213-230 | The counts after the second pass are the fold of all objects' effects |
| NiosCounter.CountResult.AddMemberDDI | internal/scanner/nios/counter.go:217-225 | Raises one family of one member and that member's accumulator by the same amount, and nothing else |
| NiosCounter.CountResult.CountDDI | internal/scanner/nios/counter.go:352-377 | A DDI object raises the grid total, its family, and either one member (map and accumulator) or the unresolved family |
| NiosCounter.CountResult.CreditLease | internal/scanner/nios/counter.go:290-317 | A lease row always counts; only the address of an active lease enters the address sets |
| NiosCounter.CountResult.ProcessLease | internal/scanner/nios/counter.go:290-317 | The accumulator of the lease's virtual node, or of the Grid Master when the node is unknown, gains one lease and, when it is active, its address; all others stay |
| NiosCounter.CountResult.ProcessFixedAddress | internal/scanner/nios/counter.go:319-331 | A fixed address joins the member addresses, and nothing else, of the owner of the first network whose block holds it, else of the Grid Master |
| NiosCounter.CountResult.ProcessHostAddress | internal/scanner/nios/counter.go:333-350 | A host address joins the host addresses, and nothing else, of the owner of the first network whose block holds it, else of the Grid Master |
| NiosCounter.CountResult.ProcessNetwork | internal/scanner/nios/counter.go:352-402 | A network counts once, for the owner of its key address/cidr/view or as unresolved, and is flagged as a host route exactly when its prefix has 32 bits |
| NiosCounter.CountResult.ProcessDHCPOption | internal/scanner/nios/counter.go:404-458 | An option with a migration flag is recorded with its network and owner; any other changes nothing |
| NiosCounter.CountResult.ProcessHostObject | internal/scanner/nios/counter.go:460-474 | A host object counts two, with aliases three, in the total, its family and the count of its zone's owner, or as unresolved |
| NiosCounter.CountResult.ProcessRecord | internal/scanner/nios/counter.go:486-510 | Any other DDI object counts one, for the owner of its zone, else for the member it names, else as unresolved |
| NiosResolver.LongestPrefixMatch | internal/scanner/nios/counter.go:131-177 | The answer is the owner of a key whose network is longest among those whose block holds the address, and there is none exactly when no block does (section 5.1 of RFC 4632) |
| NiosResolver.InNetIsBlock | internal/scanner/nios/counter.go:143 | Comparing masked bits is asking whether network and address lie in the same aligned block of 2^(bits - length) addresses |
| NiosResolver.CidrTextOfKey | internal/scanner/nios/counter.go:155-161 | A key address/cidr, with or without a view, gives address/cidr; a key without a slash gives nothing |
| NiosResolver.AnswerIsOrderIndependent | internal/scanner/nios/counter.go:131-177 | When no masked network has two owners, the answer is the same for every map order and every unstable sort |
| NiosResolver.BuildCIDREntries | internal/scanner/nios/counter.go:152-177 | The entries are exactly those of the keys whose network parses, in descending order of prefix length |
| NiosResolver.SortSlice | internal/scanner/nios/counter.go:172-176 | Some permutation in descending prefix length, equal lengths in any order |
| NiosResolver.ResolveIPMember | internal/scanner/nios/counter.go:133-148 | The owner of the first entry whose block holds the address; empty when there is none or the text is no address |
| NiosPass1.RunPass1 | internal/scanner/nios/pass1.go:54-340 | The maps, the Grid Master, and for each zone and network the owner the three tiers prescribe, for every object stream and every map order |
| NiosPass1.Pass1State.Record | internal/scanner/nios/pass1.go:71-106 | Each kind of object updates the state to what the stream so far determines: first entry wins for groups, last for virtual nodes |
| NiosPass1.Pass1State.RecordVirtualNode | internal/scanner/nios/pass1.go:108-124 | The virtual node map after one more object; the flagged master's hostname is kept |
| NiosPass1.Pass1State.RecordZone | internal/scanner/nios/pass1.go:206-216 | A zone joins the set of zones and, with a group, the zone's group map |
| NiosPass1.Pass1State.RecordBindSOA | internal/scanner/nios/pass1.go:218-228 | The last SOA name of a zone, without the trailing dot and in lower case |
| NiosPass1.Pass1State.Finalize | internal/scanner/nios/pass1.go:276-284 | Without a flagged master some member becomes the Grid Master, if there is one |
| NiosPass1.ResolveByGroup | internal/scanner/nios/pass1.go:298-310 | First tier: zones whose group names a known member belong to it |
| NiosPass1.ResolveBySoa | internal/scanner/nios/pass1.go:312-326 | Second and third tier: the member whose hostname is the SOA name, else the Grid Master |
| NiosPass1.BuildResolver | internal/scanner/nios/pass1.go:289-340 | The three maps of the resolver describe the recorded stream |
| NiosPass1.ResolverNamesMembers | internal/scanner/nios/pass1.go:289-340 | With distinct identifiers and a member, everything the resolver can answer, and the Grid Master, is a member |
| NiosTiers.ZoneOwners | internal/scanner/nios/pass1.go:289-326 | Exactly the recorded zones have owners: the member that the zone's last group stands for (primary before forwarder), else a member with the name of its last SOA primary, else the Grid Master |
| NiosTiers.NetworkOwners | internal/scanner/nios/pass1.go:328-333 | A network's owner is the member of the node that the first object for the network names |
| NiosTiers.MasterIsFlagged | internal/scanner/nios/pass1.go:108-124 | The Grid Master is the last named virtual node marked as master in either way |
| NiosTiers.FirstCounts | internal/scanner/nios/pass1.go:71-106 | Of several objects that give a value to a key the first counts, and keys nobody gives a value to are absent |
| NiosTiers.LastCounts | internal/scanner/nios/pass1.go:108-124 | Of several objects that give a value to a key the last counts, and keys nobody gives a value to are absent |
| NiosReport.Scan | internal/scanner/nios/scanner.go:150-318 | Both passes and the report: for every backup the rows are exactly those of the counts, the DDI total is gridDDI and the address total is the members' addresses, and there is one metric for each virtual node with its three counts; with distinct identifiers and hostnames the address sets are the members' and the metrics' object total is gridDDI too |
| NiosReport.BuildRows | internal/scanner/nios/scanner.go:267-318 | A row is present exactly when it is that of a non-zero count of a member, of a non-zero unresolved count under the Grid Master, or of a member with addresses; the category totals are those of the counts |
| NiosReport.RowsOfFamilies | internal/scanner/nios/scanner.go:286-301 | Exactly the non-zero families of a source, whatever the map order, with their sum |
| NiosReport.RowsOfAddresses | internal/scanner/nios/scanner.go:303-318 | Exactly the rows of the members with addresses, whatever the map order, and their sum |
| NiosReport.CountManaged | internal/scanner/nios/scanner.go:374-381 | Subtracting the overlap counts the union of the two address sets |
| NiosReport.BuildMetrics | internal/scanner/nios/scanner.go:350-434 | One metric for each virtual node in some order, with its object, active and managed counts, and the sum of the object counts |
| NiosReport.MetricsConserve | internal/scanner/nios/scanner.go:350-434 | With distinct hostnames the metrics' object counts, the Grid Master's including the unresolved ones, sum to gridDDI |
| NiosReport.Report | internal/scanner/nios/scanner.go:264-318 | Every total of the report equals the grid total of balanced counts |
| XmlRefinement.FastRefinesXml | internal/scanner/nios/scanner.go:638-810 | On the text of every printed object list with clean values, each line ending in LF or CR LF and objects broken over lines in any way, the byte scanner and the token parser deliver the same property maps and neither fails |
| XmlAgreement.ParsersAgreeIff | internal/scanner/nios/scanner.go:638-810 | The condition on values is exact: on the text of an object with one property the parsers agree if and only if the value mentions no markup reference and holds no line feed, no carriage return and no character outside production 2 of XML 1.0 |
| XmlAgreement.LineFeedLosesObject | internal/scanner/nios/scanner.go:715-751 | An object whose value holds a line feed is split by the line scanner and never delivered by it |
| XmlAgreement.ReadingsAgreeIff | internal/scanner/nios/scanner.go:784-810 | What the scanner reads of an escaped value is what the decoder reads, line ends normalised (section 2.11 of XML 1.0), if and only if the value mentions no markup reference and holds no carriage return |
| XmlFilter.FilterLaw | internal/scanner/nios/scanner.go:638-800 | On every clean printed document both parsers hand over exactly the wanted objects, in order, each as the map of its named properties to their last values |
| XmlFilter.WantedByType | internal/scanner/nios/scanner.go:673-677 | An object with one __type property is wanted exactly when its type is; without a filter every object with a named property is |
| XmlRefinement.OrdinaryIsClean | internal/scanner/nios/scanner.go:784-810 | Values of printable ASCII characters without an ampersand are clean |
| XmlRefinement.OrdinaryDocument | internal/scanner/nios/scanner.go:638-800 | Objects with names and values of printable ASCII without markup make a clean printed document, however they are broken into lines |
| XmlRefinement.FastDelivers | internal/scanner/nios/scanner.go:715-800 | On the text of a printed list whose names and values hold no line end, the byte scanner delivers, for each wanted object, what its escaped properties read back as, and does not fail |
| XmlRefinement.ScanJoined | internal/scanner/nios/scanner.go:716-724 | Splitting a text at its line feeds and dropping one carriage return before each gives the lines back, however each of them ends |
| XmlRefinement.XmlDelivers | internal/scanner/nios/scanner.go:638-712 | On the same list the token parser delivers each wanted object's properties with line ends normalised, and fails if some value or name holds an illegal character |
| XmlRefinement.BrokenIffIllegal | internal/scanner/nios/scanner.go:644-652 | The decoder reports an error exactly when a character outside production 2 of XML 1.0 occurs |
| XmlRefinement.ExtractPrinted | internal/scanner/nios/scanner.go:755-800 | Extraction from a printed line reads back its properties in order |
| XmlEntities.SequentialDecodingIff | internal/scanner/nios/scanner.go:803-810 | The five sequential replacements equal one left-to-right decoding if and only if no ampersand reference is immediately followed by the tail of a markup reference |
| XmlEntities.ScannerRecoversIff | internal/scanner/nios/scanner.go:803-810 | Escaping a value and decoding it sequentially gives the value back if and only if the value mentions none of the four markup references |
| XmlEntities.EscapedIsDoubledIff | internal/scanner/nios/scanner.go:803-810 | Escaped text is doubly escaped exactly when the raw text mentions a markup reference |
| XmlEntities.DecodeEscape | internal/scanner/nios/scanner.go:803-810 | A conforming single decoding undoes the escaping of any text (section 4.6 of XML 1.0) |
| XmlEntities.PredefinedEntities | internal/scanner/nios/scanner.go:803-810 | The references replaced are the five predefined ones and stand for their characters |
| XmlEntities.NoAmpersandNoChange | internal/scanner/nios/scanner.go:784-787 | Skipping the decoding of text without an ampersand changes nothing |
| XmlStream.ParseObjectStreamFast | internal/scanner/nios/scanner.go:715-751 | For any text, the loop over the lines that the scanner splits off delivers what the line specification says |
| XmlStream.ExtractProperties | internal/scanner/nios/scanner.go:755-800 | Appends the pairs of a line and raises the skip flag for an unwanted type |
| XmlStream.ParseObjectStreamXML | internal/scanner/nios/scanner.go:638-712 | For any tokens, ending or broken off by a decoding error, the loop delivers what the token specification says, objects before the error included, and returns the error |
| XmlStream.BuildProps | internal/scanner/nios/scanner.go:742-745 | The property map of a buffer, later pairs winning |
| SplunkQps.PeaksOfExport | internal/scanner/nios/qps_parser.go:29-138 | On the tokens of any well-formed export, with any noise in between, the result has exactly the positive maxima of each field's last texts, except for _time |
| SplunkQps.ParseSplunkQPS | internal/scanner/nios/qps_parser.go:29-138 | The token loop is the state machine; a decoding error yields no result |
| SplunkQps.KeyIsLast | internal/scanner/nios/qps_parser.go:70-80 | A field's key is the value of its last attribute k, and empty without one |
| SplunkQps.SmallExportPeaks | internal/scanner/nios/qps_parser.go:29-138 | The smallest export, one result with one field of one positive value, has exactly that peak |
| SplunkQps.MaximaAreUnique | internal/scanner/nios/qps_parser.go:103-120 | There is only one map of maxima, so the order of the results does not show |
| QpsMerge.MergeQPSData | internal/scanner/nios/scanner.go:530-577 | Each metric gets the rounded peak of its exact name, else of its identifier, else the positive maximum over keys sharing its short name, else it is unchanged |
| QpsMerge.BuildShortIndex | internal/scanner/nios/scanner.go:541-553 | The index has exactly the positive maxima over each short name, for every map order |
| QpsMerge.MergeIsOrderIndependent | internal/scanner/nios/scanner.go:530-577 | What a metric becomes is determined by the inputs |
| QpsMerge.MemberGetsItsPeak | internal/scanner/nios/scanner.go:557-563 | From export to metric: a member named by a field gets the rounded maximum of its readings |
| QpsMerge.RoundIsNearest | internal/scanner/nios/scanner.go:557-575 | The only integer nearest to the peak, halves going away from zero |
| QpsMerge.ShortIsShort | internal/scanner/nios/scanner.go:541-549 | The part before the first dot, or the whole name when there is no dot or it comes first |
| XaasConsolidation.Consolidate | frontend/src/app/components/nios-calc.ts:115-193 | The instances cut the sorted members into runs closed only because the next member would not fit, and each is sized by the first tier covering metrics and connections |
| XaasConsolidation.FlushInstance | frontend/src/app/components/nios-calc.ts:129-167 | Exact totals, first fitting tier or XL, and the price of the connections beyond it |
| XaasConsolidation.SortFacts | frontend/src/app/components/nios-calc.ts:119 | The sort is a permutation in which queries plus a hundred times leases never grow, and members of equal value keep their order |
| XaasConsolidation.PackingBound | frontend/src/app/components/nios-calc.ts:115-193 | Fewer than 2S + 1 instances, S being the sum of the four total-demand to XL-limit ratios |
| XaasConsolidation.AtMostEightTimesAnyPacking | frontend/src/app/components/nios-calc.ts:101-193 | At most eight times as many instances as any packing within the XL limits |
| XaasOptimality.FewestIff | frontend/src/app/components/nios-calc.ts:101-193 | The packer returns the fewest instances if and only if some packing into the fewest instances keeps the members in sorted order |
| XaasOptimality.StaysAhead | frontend/src/app/components/nios-calc.ts:169-191 | Greedy stays ahead: next fit over what is left of a cut of the members into permitted groups needs no more groups than are left of the cut |
| XaasOptimality.NoCutIsShorter | frontend/src/app/components/nios-calc.ts:169-191 | No cut of the sorted members into permitted groups has fewer groups than the packer returns |
| XaasOptimality.AtMostIff | frontend/src/app/components/nios-calc.ts:169-191 | At most n instances are returned if and only if the sorted members can be cut into n permitted groups or fewer |
| XaasOptimality.AtMostTwoIff | frontend/src/app/components/nios-calc.ts:169-191 | At most two instances are returned if and only if the sorted members fall at some position into two permitted halves |
| XaasOptimality.UpToTwoInstancesAreOptimal | frontend/src/app/components/nios-calc.ts:101-193 | Sorted members that fall into two permitted halves are packed into the fewest instances |
| XaasOptimality.EqualDemandsAreOptimal | frontend/src/app/components/nios-calc.ts:101-193 | Members of equal demand are packed into the fewest instances |
| XaasOptimality.AwkwardIsNotFewest | frontend/src/app/components/nios-calc.ts:101-103 | Every awkward quadruple gets three instances, which are not the fewest |
| XaasInstances.ConsolidateXaasInstances | frontend/src/app/components/nios-calc.ts:115-193 | With the published tiers and prices: the members of the instances in turn are the input sorted stably by queries plus a hundred times leases, there are fewer than 2S + 1 instances and at most eight times any legal packing, and two or fewer exactly when the sorted members halve |
| XaasInstances.InstancesAreCheapest | frontend/src/app/components/nios-calc.ts:129-167 | No published tier that carries an instance's members costs less; when none does the price is 8500 and 100 for each connection beyond 85, and never above 48500 |
| XaasInstances.InstancesCostPublishedPrice | frontend/src/app/components/shared/token-tiers.ts:44-52 | Every returned instance costs what the published table asks for its queries, leases, objects and connections |
| XaasInstances.AwkwardMembersCost | frontend/src/app/components/nios-calc.ts:101-103 | Four members of 69000, 57500, 57500 and 46000 queries get three instances for 20700 tokens where two for 17000 would do |
| XaasConsolidation.OneInstanceIff | frontend/src/app/components/nios-calc.ts:169-191 | One instance is returned exactly when there is one member or everything fits together |
| XaasConsolidation.NextFitIsUnique | frontend/src/app/components/nios-calc.ts:169-191 | The packing is determined by the order of the members |
| XaasConsolidation.InstancesAreLegal | frontend/src/app/components/nios-calc.ts:115-193 | Nothing is lost or duplicated, two or more members together respect every XL limit, and extra connections occur only at XL and within the cap |
| XaasConsolidation.FewestIsNotGuaranteed | frontend/src/app/components/nios-calc.ts:101-103 | For a whole family of four members the packer returns three instances |
| XaasConsolidation.TwoWouldSuffice | frontend/src/app/components/nios-calc.ts:101-103 | The same four members fit into two instances within every limit |
| XaasConsolidation.AwkwardMembersExist | frontend/src/app/components/shared/token-tiers.ts:44-52 | Such members exist at the real XL limits |
| TokenTiers.CalcServerTokenTier | frontend/src/app/components/nios-calc.ts:88-99 | The first tier within all three limits, else the last |
| TokenTiers.FirstAcceptedIsCheapest | frontend/src/app/components/shared/token-tiers.ts:33-49 | On an ascending table the first accepted tier is a cheapest one |
| TokenTiers.CapOnlyBeyondLast | frontend/src/app/components/nios-calc.ts:98 | The last tier is returned without fitting exactly when nothing fits |
| Calculator.CeilDivIsCeilingIff | internal/calculator/calculator.go:74-79 | CeilDiv is the mathematical ceiling exactly when the numerator is above -d or leaves remainder 1 |
| Calculator.CeilingBounds | internal/calculator/calculator.go:74-79 | The ceiling is the least integer whose multiple of d reaches n, and CeilDiv is it for n >= 0 |
| Calculator.Calculate | internal/calculator/calculator.go:97-125 | Each total is the ceiling division of its category's count sum, and the grand total their maximum |
| Calculator.EachRowCountsOnce | internal/calculator/calculator.go:99-113 | Wherever a row stands it adds its count to its own category's total and to no other |
| Calculator.Max3 | internal/calculator/calculator.go:81-90 | One of the three, and none is larger |
| Aggregation.AggregateFindings | server/scan.go:809-859 | The output is the rows merged by key in order of first appearance with recalculated tokens, for every map order |
| Aggregation.MergeRows | server/scan.go:820-832 | The map holds one entry for each key, with the insertion order |
| Aggregation.CollectRows | server/scan.go:834-841 | Walking the map in any order gives each merged row once, with its tokens |
| Aggregation.SortByOrder | server/scan.go:848-856 | The exchange sort permutes the slice in place into increasing order |
| Aggregation.MergeRepresents | server/scan.go:809-859 | One row for each key, in order of first appearance, with the sum of the key's counts |
| Aggregation.MergeCondenses | server/scan.go:809-859 | One row for each provider, source and item, in order of first appearance: the first such row without its region and with all their counts |
| Aggregation.DisplayKeepsCategoryTotals | server/scan.go:809-859 | Merging keeps every category total when rows of a key agree in category and divisor |
| Aggregation.CalculateForDisplay | server/scan.go:809-859 | The calculation on the displayed rows gives the figures of the raw rows |
| Aggregation.MergeSavesAtMostOneEach | server/scan.go:834-841 | The sum of row tokens never rises and drops by at most one for each row merged away |
| OrgScan.CrashSafeResume | internal/scanner/aws/scanner.go:137-283 | With successful scans and no cancellation, for every interleaving and every number of crashes, restarts and failed saves, a run that returns has exactly one copy of each account's rows |
| OrgScan.CheckpointNeverTorn | internal/scanner/aws/scanner.go:137-283 | At every moment the checkpoint is absent or one complete saved state of distinct accounts, and at most the worker count of accounts is in flight |
| OrgScan.AlwaysRecoverable | internal/scanner/aws/scanner.go:137-283 | From wherever crashes and restarts have led, the scan can be completed, and completely |
| OrgScan.CanFinish | internal/scanner/aws/scanner.go:163-283 | From any reachable running state an undisturbed schedule leads to the return |
| OrgScan.FirstSaveForgetsResumedUnits | internal/scanner/aws/scanner.go:142-161 | After the first save of a run none of the units it had resumed from is on disk, so they stay there if and only if nothing was resumed |
| OrgOutcomes.SavedUnitsCanVanish | internal/scanner/aws/scanner.go:142-161 | A schedule from the beginning in which an account saved by a first process is dropped from disk by the first save of the second |
| OrgOutcomes.CompleteIff | internal/scanner/aws/scanner.go:276-283 | Full success is exact: once the checkpoint is deleted, or the run has returned, every account has contributed the rows of a successful scan if and only if since the last start no unfinished account gave up and no scan failed short of its rows |
| OrgOutcomes.NoLossesNoGaps | internal/scanner/aws/scanner.go:137-283 | A run that returns without such losses has exactly one copy of each account's rows, whatever crashes, cancellations and failures earlier runs went through |
| OrgOutcomes.LossesAreShown | internal/scanner/aws/scanner.go:163-283 | The losses read off the schedule are the accounts that the run dropped or holds wrong rows of |
| OrgOutcomes.CancelledRunLosesAnAccount | internal/scanner/aws/scanner.go:276-283 | A schedule from the beginning in which a cancelled run deletes the checkpoint holding one account and returns without the other |
| OrgOutcomes.SavesAreSteps | internal/checkpoint/checkpoint.go:69-94 | Every disk state that AddUnit passes is passed by the run's steps in the same order, for every way the write and the rename can end, and both end alike |
| OrgOutcomes.NoCheckpointNoFile | internal/scanner/aws/scanner.go:142-161 | Without a path, or for a single account, no file is written under any schedule |
| OrgOutcomes.SlotsAreGiven | internal/scanner/aws/scanner.go:163-180 | A waiting account gets a slot whenever fewer are in flight than the workers asked for, five by default |
| OrgScan.ReturnedContributions | internal/scanner/aws/scanner.go:163-283 | Each account not given up contributed exactly once, with a successful scan's rows unless its scan failed in this very run |
| OrgScan.CancelledRunStillDeletes | internal/scanner/aws/scanner.go:276-283 | From any state of the invariant, a cancelled run whose accounts are waiting or done can give the rest up, delete the checkpoint and return no more than it had |
| Checkpoint.Checkpoint.AddUnit | internal/checkpoint/checkpoint.go:69-94 | The unit joins the memory; the disk states passed are exactly those of a save, at each of which the file is the old one or the complete new state |
| Checkpoint.FileSystem.WriteTmp | internal/checkpoint/checkpoint.go:85-88 | Writing touches only the temporary file, which is untouched, torn or whole when it ends |
| Checkpoint.FileSystem.RenameTmp | internal/checkpoint/checkpoint.go:90-93 | The rename replaces the checkpoint in one step, or fails and changes nothing |
| Checkpoint.FileSystem.Remove | internal/checkpoint/checkpoint.go:122-128 | Deleting an absent checkpoint succeeds |
| Checkpoint.Load | internal/checkpoint/checkpoint.go:100-118 | Absent file: fresh; unreadable, undecodable or other version: an error; else the saved state |
| Checkpoint.LoadSeesOldOrNew | internal/checkpoint/checkpoint.go:69-118 | A loader after a crash at any moment of AddUnit finds the old units or the new ones |
| Checkpoint.Semaphore.Acquire | internal/cloudutil/semaphore.go:22-30 | Takes a token if there is one; fails only when the context is done; waits exactly when full and not done |
| Checkpoint.Semaphore.Release | internal/cloudutil/semaphore.go:33-35 | Gives one token back |
| Checkpoint.SemaphoreCapacity | internal/cloudutil/semaphore.go:13-19 | The capacity asked for, or one when it is not positive |
| BrokerProtocol.ChannelsAreSafe | internal/broker/broker.go:43-99 | In every reachable state of any interleaving nothing panicked, a channel is open exactly while it is registered, and it holds at most 32 events |
| BrokerProtocol.SubscribersSeeSubsequences | internal/broker/broker.go:70-83 | Every subscriber is sent a subsequence of each publisher's events, in order |
| BrokerProtocol.ClosedStaysClosed | internal/broker/broker.go:58-99 | A closed channel stays closed and is sent nothing more, while its reader can drain it |
| BrokerProtocol.PublishNeverBlocks | internal/broker/broker.go:70-83 | A publisher can always serve its next subscriber or finish |
| BrokerProtocol.EventsReachSubscribers | internal/broker/broker.go:70-83 | From every reachable state of an open broker an idle publisher can publish, and a subscriber with room gets the event as its newest message |
| BrokerProtocol.FirstEventArrives | internal/broker/broker.go:43-83 | From the beginning: a first subscriber is registered and reads a first event |
| BrokerProtocol.PanicsExactly | internal/broker/broker.go:58-99 | A panic is exactly a send on a closed channel or closing one again |
| BrokerProtocol.SubscribeRegisters | internal/broker/broker.go:43-55 | Subscribing registers an open empty channel, or hands out a closed one when the broker is closed |
| BrokerProtocol.UnsubscribeCloses | internal/broker/broker.go:58-65 | Unsubscribing a registered channel when nobody publishes closes and forgets it, with its buffer intact |
| BrokerProtocol.StepInv | internal/broker/broker.go:43-99 | Every operation, taken apart into its interleaving steps, keeps the invariant |
| Broker.Broker.Subscribe | internal/broker/broker.go:43-55 | A fresh empty channel, registered and open, or closed when the broker is |
| Broker.Broker.Unsubscribe | internal/broker/broker.go:58-65 | Unregisters and closes a registered channel and leaves any other alone |
| Broker.Broker.Publish | internal/broker/broker.go:70-83 | Every subscriber's buffer grows by the event unless it is full |
| Broker.Broker.Close | internal/broker/broker.go:88-99 | All subscribers are unregistered and closed with their buffers intact |
| Broker.Channel.TrySend | internal/broker/broker.go:77-81 | Appends within capacity, else drops |
| ScanResults.ScheduleIndependent | internal/orchestrator/orchestrator.go:82-129 | Two schedules of the same providers return the same multisets of rows and errors and the same token totals |
| ScanResults.ResultsAreComplete | internal/orchestrator/orchestrator.go:82-129 | A returned Run holds exactly the rows that the successful scanners returned, as a bag, and one error with provider and message for each failed one, and the totals of all rows |
| ScanResults.LifecycleIsComplete | internal/orchestrator/orchestrator.go:216-246 | When the end is announced, each provider's start and completion have been published with all its other events between them, and the announcement is last |
| ScanResults.ErrorsAreAnnounced | internal/orchestrator/orchestrator.go:216-246 | When the end is announced, a provider has published an error event exactly if its scanner failed, with that message |
| ScanResults.SubscribersSeeLifecycles | internal/orchestrator/orchestrator.go:216-246 | In what any subscriber is sent, nothing follows the end of the scan, nothing of a provider follows its completion, nothing of it precedes its start |
| ScanResults.ChannelsDuringRun | internal/orchestrator/orchestrator.go:118-124 | Run never panics on a channel, and afterwards every channel is closed |
| ScanResults.TokenTotals | internal/orchestrator/orchestrator.go:120-129 | The calculated totals are functions of the collected rows |
| ScanRun.StepInv | internal/orchestrator/orchestrator.go:82-129 | Every step of a provider, a scanner goroutine, a subscriber or the orchestrator keeps the order invariant |
| ScanProgress.RunCanReturn | internal/orchestrator/orchestrator.go:79-129 | From every reachable state Run can return without any subscriber doing anything |
| ScanProgress.EveryForestOnce | internal/orchestrator/orchestrator.go:131-153 | The expansion asks for every additional forest as often as for the primary one, and for everything else as before |
| ScanProgress.ExpandADForests | internal/orchestrator/orchestrator.go:134-153 | Each request is followed by one for each additional forest if it is an Active Directory request |
| ScanProgress.Launch | internal/orchestrator/orchestrator.go:91-116 | One goroutine for each expanded request whose scanner is registered, in order |
| ScanProgress.LaunchesEach | internal/orchestrator/orchestrator.go:91-116 | A request becomes one goroutine exactly when the scanner for it is registered: the WAPI and backup scanners for NIOS and EfficientIP in those modes, else the provider's |
| ScanProgress.ExpandsEach | internal/orchestrator/orchestrator.go:134-153 | An Active Directory request is followed by one for each additional forest, with its settings and without its selection; any other request stands alone |
| ProjectDiscovery.DiscoverProjects | internal/scanner/gcp/projects.go:145-207 | Whenever the folder loop ends: succeeds exactly when the queue runs empty and no search is refused, with what is kept of the projects under every visited name; otherwise names the refused parent |
| ProjectDiscovery.CollectParents | internal/scanner/gcp/projects.go:150-175 | Whenever the loop ends: without a refusal exactly when the queue runs empty, then with the names in visiting order; otherwise with the refused name, the last one visited |
| ProjectDiscovery.EndsCleanlyIff | internal/scanner/gcp/projects.go:150-175 | The queue runs empty after some number of turns if and only if a finite tree shows the listings and every listing in it is answered |
| ProjectDiscovery.TreesEnd | internal/scanner/gcp/projects.go:150-175 | On listings shown by finite trees the loop ends within as many turns as there are nodes, at the first refused listing if there is one |
| ProjectDiscovery.VisitedIsTree | internal/scanner/gcp/projects.go:150-175 | What is visited is the queue's order of the tree's nodes, or a prefix of it that ends in a refusal |
| ProjectDiscovery.OnlyRefusalsEndEarly | internal/scanner/gcp/projects.go:150-175 | A loop that ends has emptied its queue or met a refused listing |
| ProjectDiscovery.RefusalEndsWithoutTree | internal/scanner/gcp/projects.go:150-175 | A refused listing ends the loop although a folder listed under itself is queued and no tree shows the listings |
| ProjectDiscovery.SelfListedNeverEndsCleanly | internal/scanner/gcp/projects.go:150-175 | A queued folder that is listed under itself keeps the queue from ever running empty |
| ProjectDiscovery.EachNodeIsVisited | internal/scanner/gcp/projects.go:150-175 | The queue visits each node of the tree exactly as often as the tree has it |
| ProjectDiscovery.EachFolderOnce | internal/scanner/gcp/projects.go:150-175 | With distinct names each parent is visited once |
| ProjectDiscovery.FoundExactly | internal/scanner/gcp/projects.go:177-206 | An ID is found exactly when an active project with it is answered for some node of the tree |
| ProjectDiscovery.KeptExactly | internal/scanner/gcp/projects.go:191-203 | Exactly the IDs of the active projects, each once |
| ProjectDiscovery.OnlyActiveFolders | internal/scanner/gcp/projects.go:160-173 | The names queued after a listing are those of its active folders, in order and as often |
| ProjectDiscovery.SearchAll | internal/scanner/gcp/projects.go:177-206 | All searches succeed and the first active project of each ID is kept, or a refused parent is named |
| ProjectDiscovery.SelfListedHasNoTree | internal/scanner/gcp/projects.go:150-175 | A folder listed under itself belongs to no finite tree |
| Backoff.CeilingIsMinimumIff | internal/cloudutil/retry.go:126-134 | For positive base and cap the ceiling is min(cap, base times 2^attempt) at every attempt if and only if none of the first 63 attempts wraps to something between zero and the cap |
| Backoff.CeilingIsMinimum | internal/cloudutil/retry.go:126-134 | Despite 64-bit wrap-around the ceiling is min(cap, base times 2^attempt) at every attempt, when odd part of base times cap is below 2^63 |
| Backoff.CeilingIsExactIff | internal/cloudutil/retry.go:126-134 | Per attempt the ceiling is exact if and only if the product fits or wraps to zero, below, or not below the cap |
| Backoff.DefaultsAreSafe | internal/cloudutil/retry.go:60-72 | The defaults of one and thirty seconds meet the condition |
| Backoff.WrapCanShortenTheDelay | internal/cloudutil/retry.go:126-134 | A concrete base, cap and attempt for which the ceiling is too small |
| Backoff.ComputeDelay | internal/cloudutil/retry.go:126-134 | Some delay from zero up to the ceiling, exclusive |
| Backoff.CallWithBackoff | internal/cloudutil/retry.go:60-122 | fn is called between one and MaxRetries + 1 times, all calls but the last failed retryably, each sleep is proper, and the result says how it ended |
| PgRoundTrip.RoundTrip | internal/scanner/efficientip/backup.go:146-368 | For every version triple, all word sizes and any suffix, reading a printed archive gives the retained fields and stops exactly at the end of the table of contents |
| PgRoundTrip.EntryBack | internal/scanner/efficientip/backup.go:235-368 | The same for one entry with all its version-conditional fields |
| PgRoundTrip.OrdinaryEntryFits | internal/scanner/efficientip/backup.go:75-110 | With words of four bytes or more every entry fits whose numbers and lengths are below 2^32, so that the round trip covers it |
| PgRoundTrip.IntBack | internal/scanner/efficientip/backup.go:75-93 | A printed integer that fits the word size is read back, whatever follows |
| PgRoundTrip.StrBack | internal/scanner/efficientip/backup.go:96-110 | A printed string is read back; NULL reads as the empty string |
| PgRoundTrip.OffsetBack | internal/scanner/efficientip/backup.go:114-134 | A printed offset is read back in each of its three forms |
| PgDump.PackedOrderIsLexicographic | internal/scanner/efficientip/backup.go:61-65 | Comparing packed versions is comparing the byte triples |
| PgDump.Stream.ReadPgDumpInt | internal/scanner/efficientip/backup.go:75-93 | Result and bytes left follow the integer format, including 64-bit wrap-around for long words, and short input fails |
| PgDump.Stream.ReadPgDumpStr | internal/scanner/efficientip/backup.go:96-110 | Result and bytes left follow the string format |
| PgDump.Stream.ReadPgDumpOffset | internal/scanner/efficientip/backup.go:114-134 | Result and bytes left follow the offset format; an unknown flag fails |
| PgDump.Stream.ParseTocEntry | internal/scanner/efficientip/backup.go:235-368 | Result and bytes left follow the entry format of the version |
| PgDump.Stream.ParsePgDump | internal/scanner/efficientip/backup.go:146-232 | Result and bytes left follow the archive format; the first unreadable field is named |
| TableLaws.CountsPassingRows | internal/scanner/efficientip/backup.go:397-597 | With a printed COPY statement and a raw block cut in any way, the count is the number of rows whose named columns pass the filter |
| TableLaws.ChunkingIsIrrelevant | internal/scanner/efficientip/backup.go:480-554 | For every compression algorithm only the concatenated text of the chunks counts |
| TableLaws.SameTextSameCount | internal/scanner/efficientip/backup.go:480-554 | Two raw blocks with the same text cut differently count the same |
| TableLaws.UnpacksExactly | internal/scanner/efficientip/backup.go:517-545 | A chunk is taken as it is, or as gzip or zstd unpacks it, and any other algorithm is an error |
| TableLaws.BlocksWithoutRows | internal/scanner/efficientip/backup.go:483-506 | No offset or an end-of-file block counts nothing; an offset outside the archive or a block of another type is an error |
| TableLaws.ColumnsOfPrinted | internal/scanner/efficientip/backup.go:397-428 | The columns of a printed COPY statement are found again, in order |
| TableLaws.CountsRows | internal/scanner/efficientip/backup.go:558-597 | Counting the lines of a printed table is counting the accepted rows |
| TableLaws.AcceptsIffPasses | internal/scanner/efficientip/backup.go:463-476 | Filtering by column index is filtering by column name |
| TableCount.CountTableRows | internal/scanner/efficientip/backup.go:480-554 | The outcome for any archive, entry and filter, with every error condition |
| TableCount.CountRows | internal/scanner/efficientip/backup.go:558-597 | The number of lines that are neither empty nor the terminator and pass the filter |
| TableCount.ParseCopyColumns | internal/scanner/efficientip/backup.go:397-428 | The trimmed non-empty parts of the first parenthesised list |
| TableCount.SplitComma | internal/scanner/efficientip/backup.go:431-450 | The parts between commas outside parentheses |
| TableCount.ColumnIndex | internal/scanner/efficientip/backup.go:453-460 | The first column of that name, or -1 |
| TableCount.BuildColumnFilter | internal/scanner/efficientip/backup.go:463-476 | The filter of the statement's columns |
| SpecTwins.TextsAgreeIff | internal/calculator/vnios_specs.go:819-932 | The Go and TypeScript texts of corresponding tables are equal if and only if no string holds a backspace or form feed, and both always read back as the table |
| SpecTable.TextsAreInjective | internal/calculator/vnios_specs.go:834-932 | Different tables have different texts, even across the two languages |
| SpecTable.TableBack | internal/calculator/vnios_specs.go:834-932 | A reader recovers the table from its text, with either language's escapes |
| JsonText.StringBack | internal/calculator/vnios_specs.go:904-932 | A literal is read back by a reader of section 7 of RFC 8259, whatever follows |
| JsonText.EscapesUndone | internal/calculator/vnios_specs.go:904-932 | Both languages' escapes of every character are read back |
| JsonText.NumberBack | internal/calculator/vnios_specs.go:889-894 | A decimal number is read back, whatever follows that cannot continue it |
| JsonText.NumberIsShortest | internal/calculator/vnios_specs.go:889-894 | No shorter text is read as the same number |
| JsonText.GoIsLonger | frontend/src/app/components/resource-savings.ts:625-631 | Each backspace or form feed makes the Go literal four characters longer; nothing else differs |
| SpecTwins.TwinTableText | frontend/src/app/components/resource-savings.ts:633-669 | The TypeScript text of the corresponding table is the Go layout with TypeScript escapes |
| SpecSerializers.CanonicalVNIOSSpecsJSON | internal/calculator/vnios_specs.go:834-845 | The buffer ends as the table's canonical text |
| SpecSerializers.Buffer.WriteSpec | internal/calculator/vnios_specs.go:847-875 | Appends exactly the text of one spec |
| SpecSerializers.Buffer.WriteVariant | internal/calculator/vnios_specs.go:877-899 | Appends exactly the text of one variant, optional fields only when non-empty |
| SpecSerializers.Buffer.WriteJSONString | internal/calculator/vnios_specs.go:904-932 | Appends exactly the quoted and escaped string |
| SpecSerializers.SerializeVariant | frontend/src/app/components/resource-savings.ts:633-641 | The parts of the keys that have a value, in key order |
| SpecSerializers.SerializeSpec | frontend/src/app/components/resource-savings.ts:643-657 | The parts of the keys that have a value, the variants as a list |

## Left out

- NiosCounter.CountResult.ProcessDHCPOption: the option name, which the source leaves empty, and the table that classifies options; the class of an option is a parameter.
- NiosCounter.CountResult.ProcessObject: trimming is that of ASCII white space.
- NiosPass1.Pass1State.Record: physical nodes, positional DNS and DHCP properties, licences and feature flags, which feed descriptive columns only.
- NiosPass1.Pass1State.RecordBindSOA: lower-casing is that of ASCII letters.
- NiosResolver.LongestPrefixMatch: addresses and networks of one family are compared as numbers of the same width; how texts are parsed into them is a parameter, and mixed families never match.
- NiosReport.BuildMetrics: role, model, platform, licences and DHCP statistics of a member.
- NiosReport.Scan: the filter on selected members, the feature and licence reports, and the archive itself; display names of families are a parameter.
- XmlStream.ParseObjectStreamFast: the limit of 4 MB on a line, after which the source stops with an error.
- XmlStream.ParseObjectStreamXML: the XML tokenizer itself; its tokens are given, broken off where it reports an error, and an attribute value is decoded in one pass with line ends normalised.
- SplunkQps.ParseSplunkQPS: infinities and NaN, for which ParseFloat succeeds, and the list of column names, which the source collects and does not use.
- QpsMerge.MergeQPSData: QPS values are real numbers, so that floating-point rounding does not arise.
- XaasConsolidation.Consolidate: the JavaScript numbers of members are integers; packing bounds ask for non-negative ones.
- Aggregation.CollectRows: the floating-point ceiling of a quotient is the exact integer ceiling.
- OrgScan.CrashSafeResume: completion times in the units and the configuration errors of a single account, which the source cannot produce at that point.
- Checkpoint.Load: the JSON encoding; a file is whole, torn, of another version, unreadable or absent.
- Checkpoint.Semaphore.Acquire: waiting is one poll of the select at a time.
- Broker.Broker.Publish: one operation at a time; interleavings are in BrokerProtocol.
- BrokerProtocol.StepInv: an event's fields beyond type and provider are one text.
- ScanRun.StepInv: the session's progress and attached results, and scanners that publish provider_start or scan_complete themselves, which none does.
- ScanProgress.Launch: the credentials put into a provider's request.
- ProjectDiscovery.DiscoverProjects: an answer stands for a call with its retries, and is the same when asked again; the ghost bound on the turns asks exactly that the folder loop ends.
- ProjectDiscovery.CollectParents: the same ghost bound; of a loop that does not end nothing is said but when that is so.
- Backoff.CallWithBackoff: fn is a sequence of outcomes; the OnRetry callback and the passing of time.
- PgDump.Stream.ParsePgDump: a negative entry count, on which the program panics, is an error here, and so is a string length that could not be allocated; an error names the field without its nesting.
- TableCount.CountTableRows: what gzip and zstd compute; decompression of a chunk is a parameter.
- TableCount.ParseCopyColumns: trimming is that of ASCII white space.
- SpecTable.TableBack: RAM sizes are hundredths of a gigabyte, and numbers are below the size at which JavaScript switches to exponents.
- JsonText.StringBack: text is a sequence of Unicode characters without lone surrogates.
- Cloud, Active Directory, BlueCat, WAPI and live EfficientIP clients, HTTP handlers, uploads, Excel sheets and the user interface.
- The checkpoint loops of the GCP and Azure scanners, which follow the protocol of the AWS one.
- The record-type table and the scan report of the EfficientIP backup, which would add easy members only.
- The check-then-set when a scan is started and the unsynchronised progress counters of a provider, which no lock guards.
