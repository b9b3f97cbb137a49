# OPNsense monitoring for Checkmk: a verified model

This project models the evaluation layer of the Checkmk plug-in for OPNsense firewalls.

The plug-in has two halves:
- A special agent queries the OPNsense REST API and writes JSON sections.
- Check plug-ins parse those sections, discover services, and turn each service's data into results (OK, WARN, CRIT, UNKNOWN) and metrics.

The model covers the following:
- **The special agent's client.** It strips the base URL and joins request URLs. It also runs the paging loop that collects the virtual IP status. The HTTP exchange is replaced by the sequence of pages the server would answer.
- **The agent's command line and the rule migrations.** These build the argument list from the rule parameters, turn the old boolean certificate option into a choice, and add the default feature switches to old rules.
- **The check plug-ins.** One module each covers interfaces, firewall, firmware and licence, gateways, CARP and virtual IPs, IPsec tunnels and their children, ZFS boot-environment snapshots, and the Unbound resolver. Each module covers the plug-in's parse, discovery and check functions.

Shared modules model what the plug-ins lean on:
- **`Common`.** Results and metrics, and Checkmk's `check_levels` specified by its threshold semantics. It also holds Python's list comprehensions, `for`/`else` searches and insertion-ordered dicts, and the `Try` type, whose `Raised` case stands for an exception that aborts a check.
- **`Text`.** Python's string methods: `split`, `strip`, `rstrip`, `lower`, and string comparison.
- **`Numbers`.** Python's `int()`, `float()` and `str()` on the plain decimal literals the agent writes.
- **`Rates`.** Checkmk's `get_rate` over a per-service value store.

The style follows the source, file by file:
- Pure branching and comprehensions are functions.
- Loops that update variables are methods with loop invariants. Each method is proved equal to a specification function.
- An object whose fields change in place is a class: the API client, the rule model, the value store.

## Model

| member | source | states |
|---|---|---|
| Agent.BaseUrl | lib/agent.py:41 | the stripped URL is a prefix of the configured one, does not end in '/', and only '/' characters were removed |
| Agent.BaseUrlSlashes | lib/agent.py:41 | trailing slashes make no difference to the base URL, and stripping is idempotent |
| Agent.JoinUrlParts | lib/agent.py:52-53 | a request URL is the stripped base, exactly one '/', then module/controller/command; base and path can be read back, and there is no double slash at the join |
| Agent.OSAPI.constructor | lib/agent.py:40-44 | the client keeps the stripped URL, the key, the secret and the certificate flag, which defaults to verifying |
| Agent.OSAPI.RequestFor | lib/agent.py:52-53 | a request carries the given method and the page, and its URL starts with the client's base URL |
| Agent.GetPostDiffer | lib/agent.py:58-62 | get and post build the same request apart from the method, GET or POST, and the URL is the joined one |
| Agent.Paged | lib/agent.py:64-76 | the paging loop gives no answer exactly when no given page meets the stop condition |
| Agent.OSAPI.GetVipStatus | lib/agent.py:64-76 | the while loop equals the specification: the rows of every page fetched, in order, and the CARP status of the last page. It stops right after the first page with total <= rowCount * (current + 1). The requests sent are POSTs for pages 1, 2, 3, ... up to that page |
| Agent.RowsOfServed | lib/agent.py:71 | for a server that pages consistently, the rows of the first n pages are the first n * rowCount rows |
| Agent.StopCondition | lib/agent.py:73-74 | on page i + 1 the written condition holds iff the total fits into i + 2 pages |
| Agent.LastPageStops | lib/agent.py:73-74 | with enough pages, the last page meets the written condition, so the loop ends within the pages served |
| Agent.AsWrittenMissesRows | lib/agent.py:73-74 | as written, a consistent server whose rows do not fit one page loses rows: fewer rows come back than it holds |
| Agent.AsWrittenFifteenRows | lib/agent.py:73-74 | fifteen rows in pages of ten: as written only the first ten come back, while the intended condition returns all fifteen |
| Agent.IntendedCondition | lib/agent.py:73-74 | on page i + 1 the intended condition holds iff the total fits into i + 1 pages |
| Agent.FirstIntendedStop | lib/agent.py:73-74 | with the intended condition, the first stopping page is the one holding the last row |
| Agent.IntendedFetchesAll | lib/agent.py:64-76 | with the intended condition, a consistent server yields every row, fetching up to the page holding the last row and no further |
| Agent.FetchesAllServed | lib/agent.py:64-76 | the same as IntendedFetchesAll, with the page bound as repeated addition |
| AgentCommand.Dashed | server_side_calls/agent_opnsense.py:59 | each part becomes "--" + part, position by position |
| AgentCommand.Commands | server_side_calls/agent_opnsense.py:45-61 | exactly one command is yielded, or AttributeError exactly when there is no secret, from unsafe() on None |
| AgentCommand.CommandsFunction | server_side_calls/agent_opnsense.py:45-61 | the method growing the argument list with += in the loop over the feature names yields the specified command |
| AgentCommand.FlagsFilter | server_side_calls/agent_opnsense.py:57-59 | the loop's options are "--<part>" for the enabled parts, in the fixed order |
| AgentCommand.DashedAppend | server_side_calls/agent_opnsense.py:57-59 | options for two lists of parts are the options of each, concatenated |
| AgentCommand.FilterCount | server_side_calls/agent_opnsense.py:57-59 | the enabled parts keep every occurrence of an enabled part and none of a disabled one |
| AgentCommand.DashedCount | server_side_calls/agent_opnsense.py:59 | "--" + x occurs among the options as often as x among the parts |
| AgentCommand.PartsDistinct | server_side_calls/agent_opnsense.py:57 | the eight feature names are distinct |
| AgentCommand.PartsOnce | server_side_calls/agent_opnsense.py:57 | each feature name is listed exactly once |
| AgentCommand.DistinctOnce | server_side_calls/agent_opnsense.py:57 | an element of a list without repetitions occurs exactly once |
| AgentCommand.CommandLineSpec | server_side_calls/agent_opnsense.py:49-59 | the argument list starts '-U', url, '-k', key, '-s', secret. Then comes '--ignore-cert' when the certificate is not checked, then the enabled parts in order. Its length is 6, plus the certificate option, plus the number of enabled parts |
| AgentCommand.CommandLineParts | server_side_calls/agent_opnsense.py:49-59 | the argument list is the fixed head followed by the options |
| AgentCommand.CommandsSpec | server_side_calls/agent_opnsense.py:45-61 | with a secret, one command whose arguments are the fixed head, then the certificate option, then the enabled switches, with the length that follows |
| AgentCommand.OptionsCount | server_side_calls/agent_opnsense.py:54-59 | each "--x" option occurs as often as the certificate option contributes it, plus, when x is enabled, as often as x is listed |
| AgentCommand.CommandLineIgnoreCert | server_side_calls/agent_opnsense.py:54-55 | '--ignore-cert' occurs once iff ignore_cert is not 'check_cert', otherwise never |
| AgentCommand.CommandLineSwitch | server_side_calls/agent_opnsense.py:57-59 | for distinct switches, each switch's option occurs once iff the switch is enabled |
| AgentCommand.CommandOptions | server_side_calls/agent_opnsense.py:54-59 | in the yielded command '--ignore-cert' occurs once iff ignore_cert is not 'check_cert', and "--<part>" once iff the part is enabled, never otherwise |
| AgentCommand.FilterHead | server_side_calls/agent_opnsense.py:57-59 | switches that are all off after the enabled ones contribute nothing |
| AgentCommand.DefaultCommand | server_side_calls/agent_opnsense.py:30-42 | with the Params defaults (certificate checked; unbound, snapshot and ssl off) the options are those of the five original features alone, and the command has at most eleven arguments |
| Datasource.MigrateBoolToChoice | rulesets/datasource.py:38-41 | True becomes 'ignore_cert', False becomes 'check_cert', and any non-boolean value is returned unchanged |
| Datasource.MigrateBoolToChoiceIdempotent | rulesets/datasource.py:38-41 | a migrated value is never a boolean, and migrating twice equals migrating once |
| Datasource.SetDefault | rulesets/datasource.py:53-55 | a present key leaves the model unchanged, and a missing key is appended, switched on |
| Datasource.SetDefaultKeeps | rulesets/datasource.py:53-55 | a key that was present keeps its value |
| Datasource.RuleModel.constructor | rulesets/datasource.py:44 | the model holds the given items, each key once as in a Python dict |
| Datasource.RuleModel.MigrateSpecialAgent | rulesets/datasource.py:44-56 | the loop over the defaults updates the same model in place, keeping each key once, and it is returned. Its new items are the old ones with each missing feature switch added |
| Datasource.AddDefaultsKeys | rulesets/datasource.py:52-55 | after the migration the keys are exactly the old keys and the features added |
| Datasource.AddDefaultsKeeps | rulesets/datasource.py:53-54 | a key that was present keeps its value |
| Datasource.AddDefaultsMissing | rulesets/datasource.py:55 | a feature key that was missing is True |
| Datasource.AddDefaultsPrefix | rulesets/datasource.py:52-55 | keys already there stay in place, and added keys follow them |
| Datasource.AddDefaultsPresent | rulesets/datasource.py:53-54 | a model that has every feature key is not changed |
| Datasource.AddDefaultsIdempotent | rulesets/datasource.py:44-56 | migrating a migrated model changes nothing |
| Datasource.MigrationSpec | rulesets/datasource.py:44-56 | after the migration all five keys are present, and the keys are the old ones plus the features. Old keys keep their value, missing features are True, and every other key is unchanged |
| Datasource.AddDefaultsFresh | rulesets/datasource.py:52-55 | distinct missing keys are appended in their order |
| Datasource.MigrateRuleWithoutSwitches | rulesets/datasource.py:45-55 | a rule without any feature switch gets all five, switched on, after its own keys, in the order firewall, firmware, vip, gateway, ipsec |
| Common.CheckLevels | agent_based/opnsense_vip.py:88-107 | check_levels gives one Result with the label and, when a metric name is given, a Metric with the value, the upper levels and the boundaries. The state is CRIT iff a crit threshold is breached, WARN iff only a warn threshold is, OK otherwise |
| Common.UpperLevelsSemantics | agent_based/opnsense_gateway.py:102-115 | with upper levels (w, c) alone: CRIT iff v >= c, WARN iff w <= v < c, OK otherwise |
| Common.LowerLevelsSemantics | agent_based/opnsense_firmware.py:90-96 | with lower levels (w, c) alone: CRIT iff v < c, WARN iff c <= v < w, OK otherwise |
| Common.NoLevelsIsOk | agent_based/opnsense_ipsec.py:126-132 | a value checked without levels is always OK |
| Common.NoLevelsItems | agent_based/opnsense_ipsec.py:169-176 | without levels a value with a metric gives an OK result and the bare metric |
| Common.AllOkAppend | agent_based/opnsense_ipsec.py:178-219 | concatenated results that are all OK stay all OK |
| Common.Filter | agent_based/opnsense_ipsec.py:51-56 | a comprehension with a condition keeps only elements that satisfy it, and is no longer than its input |
| Common.FilterMembers | agent_based/opnsense_ipsec.py:51-56 | the comprehension keeps an element exactly when it is in the input and satisfies the condition |
| Common.FilterAppend | agent_based/opnsense_ipsec.py:51-56 | filtering distributes over concatenation, so the kept elements stay in their original order |
| Common.FilterAll | agent_based/opnsense_ipsec.py:163-167 | filtering a list whose every element passes changes nothing |
| Common.FilterNone | agent_based/opnsense_ipsec.py:163-167 | filtering a list whose elements all fail yields nothing |
| Common.FirstWhere | agent_based/opnsense_ipsec.py:97-101 | the for/else search finds the first index satisfying the condition, or none exactly when no element does |
| Common.Find | agent_based/opnsense_ipsec.py:97-101 | the loop that breaks at the first match returns the index FirstWhere specifies |
| Common.FirstWhereIs | agent_based/opnsense_ipsec.py:97-101 | an index that satisfies the condition, with no earlier one that does, is the one found |
| Common.LastWhere | agent_based/opnsense_gateway.py:64-67 | the last index satisfying the condition, or none exactly when no element does |
| Common.LastWhereIs | agent_based/opnsense_gateway.py:64-67 | an index that satisfies the condition, with no later one that does, is the last one |
| Common.LastWhereInit | agent_based/opnsense_gateway.py:64-67 | a last element that fails the condition does not change the last match |
| Common.TryMapSpec | agent_based/opnsense_gateway.py:54-62 | the loop succeeds iff every conversion does, and then gives each element's conversion in order, with the length kept |
| Common.TryMapRaised | agent_based/opnsense_gateway.py:54-62 | once a prefix fails, the whole loop fails with the same exception |
| Common.Keys | agent_based/opnsense.py:104-113 | the keys of a dict are its items' keys in insertion order |
| Common.Lookup | agent_based/opnsense_gateway.py:90-93 | a lookup finds nothing exactly when the key is absent |
| Common.LookupDistinct | agent_based/opnsense_gateway.py:79-93 | with distinct keys, looking up an item's key finds that item |
| Common.Assign | agent_based/opnsense.py:104-113 | d[k] = v replaces an existing key's value in place or appends a new key. Afterwards k maps to v, other keys keep their value, and keys stay distinct |
| Common.AssignKeys | agent_based/opnsense.py:104-113 | assignment keeps the key order, appending a new key at the end |
| Common.AssignLookup | agent_based/opnsense.py:104-113 | after d[k] = v, k maps to v |
| Common.AssignOthers | agent_based/opnsense.py:104-113 | after d[k] = v every other key keeps its value |
| Common.LookupOther | agent_based/opnsense.py:104-113 | after d[k] = v a different key keeps its value |
| Common.AssignDistinct | agent_based/opnsense.py:104-113 | assignment keeps the keys distinct |
| Common.AssignKeySet | agent_based/opnsense.py:104-113 | after d[k] = v the keys are the old ones and k |
| Common.KeysSnoc | agent_based/opnsense.py:104-113 | appending an item appends its key |
| Common.DictOf | agent_based/opnsense_gateway.py:64-67 | a dict comprehension has distinct keys |
| Common.DictOfLookup | agent_based/opnsense_gateway.py:64-67 | in a dict comprehension each key maps to the value of its last occurrence, and is absent when it never occurs |
| Common.DictOfCovers | agent_based/opnsense_gateway.py:64-67 | every key of the input is a key of the dict |
| Common.DictOfLast | agent_based/opnsense_gateway.py:64-67 | the value of the last item of a key is the one stored |
| Common.DictOfKeys | agent_based/opnsense_gateway.py:64-67 | the dict's keys come in order of first occurrence |
| Common.DictOfKeySet | agent_based/opnsense_gateway.py:64-67 | the dict's keys are exactly the input's keys |
| Text.LStrip | agent_based/opnsense_snapshot.py:39-45 | s.lstrip() removes exactly the leading whitespace |
| Text.RStrip | agent_based/opnsense_snapshot.py:39-45 | s.rstrip() removes exactly the trailing whitespace |
| Text.StripTrimmed | agent_based/opnsense_snapshot.py:39-45 | a string without surrounding whitespace is its own strip |
| Text.RStripChar | lib/agent.py:41 | s.rstrip(c) removes exactly the trailing run of c |
| Text.RStripCharAppend | lib/agent.py:41 | rstrip(c) is idempotent, and appending more c changes nothing |
| Text.TokenLength | agent_based/opnsense_gateway.py:43 | the first word ends at the first whitespace character |
| Text.Split | agent_based/opnsense_gateway.py:43 | every part of s.split() is a non-empty word without whitespace |
| Text.SplitToken | agent_based/opnsense_gateway.py:43 | a word followed by whitespace splits off as the first part |
| Text.TokenLengthOf | agent_based/opnsense_gateway.py:43 | a word followed by whitespace is exactly the first word |
| Text.SplitTwoTokens | agent_based/opnsense_gateway.py:43 | "a b".split() is ["a", "b"] for two words |
| Text.BeforeFirst | agent_based/opnsense.py:109 | s.split(sep)[0] is the prefix before the first sep, and does not contain sep |
| Text.Lower | agent_based/opnsense_unbound.py:95 | str.lower() on ASCII text keeps the length, maps each of A-Z to its lower-case letter and keeps every other character |
| Text.LowerAppend | agent_based/opnsense_unbound.py:95 | the ASCII lower-casing distributes over concatenation |
| Text.LessIrreflexive | agent_based/opnsense_vip.py:153-157 | no string sorts before itself |
| Text.LessTransitive | agent_based/opnsense_vip.py:153-157 | string order is transitive |
| Text.LessTotal | agent_based/opnsense_vip.py:153-157 | distinct strings are ordered one way or the other, never both |
| Numbers.DigitChar | agent_based/opnsense.py:85 | each digit value has a digit character of that value |
| Numbers.NatToString | agent_based/opnsense.py:85 | str(n) is a non-empty string of digits without a leading zero |
| Numbers.NatToStringValue | agent_based/opnsense.py:85 | str(n) reads back as n |
| Numbers.ParseInt | agent_based/opnsense_firewall.py:60 | on decimal literals, int(s) succeeds iff the stripped string is an optional sign and at least one ASCII digit, and raises ValueError otherwise |
| Numbers.IntStringParts | agent_based/opnsense_firewall.py:60 | str(i) has no surrounding whitespace, and its sign and digits are those of i |
| Numbers.IntRoundTrip | agent_based/opnsense_firewall.py:60 | int(str(i)) == i |
| Numbers.ParseFloat | agent_based/opnsense_gateway.py:45 | on decimal literals (optional sign, ASCII digits, at most one point), float(s) raises only ValueError |
| Numbers.FloatOfIntString | agent_based/opnsense_unbound.py:77 | float(str(i)) is i |
| Numbers.FloatOfInteger | agent_based/opnsense_unbound.py:77 | a stripped literal of a sign and digits without a decimal point reads as its signed value |
| Numbers.FloatOfDecimal | agent_based/opnsense_gateway.py:45 | "<whole>.<frac>" reads as whole + frac / 10^len(frac) |
| Numbers.Trunc | agent_based/opnsense_snapshot.py:45 | int(x) truncates toward zero: the largest integer not above a non-negative x, the smallest not below a negative one |
| Numbers.IntOf | agent_based/opnsense_firewall.py:60 | int(v) of a decoded value: TypeError exactly for None, an integer is kept, a string is parsed |
| Numbers.FloatOf | agent_based/opnsense_ipsec.py:127 | float(v) of a decoded value: TypeError exactly for None, an integer is converted, a string is parsed |
| Numbers.CounterString | agent_based/opnsense_unbound.py:66 | a counter written as the decimal string of an integer converts to that integer under both int() and float() |
| Rates.RateOf | agent_based/opnsense_unbound.py:66 | get_rate gives no rate for a new key, a clock that did not advance, or a counter that went down. Otherwise the rate is non-negative and times the elapsed time is the increase |
| Rates.ValueStore.constructor | agent_based/opnsense_unbound.py:61 | a fresh value store holds no samples |
| Rates.ValueStore.GetRate | agent_based/opnsense_unbound.py:66 | get_rate returns the rate against the previous sample and always stores the new sample under its key |
| Rates.ValueStore.Rates | agent_based/opnsense_unbound.py:64-74 | the loop of guarded rate metrics: the final store and the items are those of the specification fold; a failing request yields nothing and the loop goes on |
| Rates.StepsAppend | agent_based/opnsense_unbound.py:64-118 | running the loop over two batches in turn is running it over their concatenation |
| Rates.RateFoldStore | agent_based/opnsense_unbound.py:64-74 | requests on other keys leave a key's sample alone, and a converted counter is stored under its key with the check's time |
| Rates.RateFoldIndependent | agent_based/opnsense_unbound.py:64-74 | with distinct keys no request affects another: each yields exactly what it would alone against the original store, at most two items each |
| Rates.FirstRunReportsNothing | agent_based/opnsense_unbound.py:64-74 | on the first check nothing is reported, and every converted counter is stored |
| Rates.FlattenEmpty | agent_based/opnsense_unbound.py:64-74 | concatenating empty lists gives nothing |
| Rates.RatesAllOk | agent_based/opnsense_unbound.py:67-72 | rate metrics carry no levels, so every rate result is OK |
| Rates.RateFoldAppend | agent_based/opnsense_unbound.py:64-118 | processing two batches of requests in turn is processing their concatenation: stores chain and items concatenate |
| Interfaces.Position | agent_based/opnsense.py:85 | list.index gives the first position holding the name |
| Interfaces.InterfaceTypeListed | agent_based/opnsense.py:84-85 | a listed name maps to the decimal string of its first position in the list as written |
| Interfaces.InterfaceTypeRange | agent_based/opnsense.py:24-85 | every listed name maps to a number from 0 to 57 |
| Interfaces.NoListedUnknown | agent_based/opnsense.py:24-87 | no listed name starts with 'u', so the listed branch and the "unknown type" branch never compete |
| Interfaces.InterfaceTypeUnknown | agent_based/opnsense.py:86-87 | "unknown type <suffix>" maps to what follows index 13 |
| Interfaces.InterfaceTypeOther | agent_based/opnsense.py:88-89 | every other string maps to "1" |
| Interfaces.InterfaceTypeReserved | agent_based/opnsense.py:25 | "reserved" gives "0" |
| Interfaces.InterfaceTypeOtherName | agent_based/opnsense.py:26 | "other" gives "1" |
| Interfaces.InterfaceTypeEthernet | agent_based/opnsense.py:24-85 | "Ethernet" gives "6" |
| Interfaces.Get | agent_based/opnsense.py:14-19 | d.get(k, None) is None for a missing key and the stored value otherwise |
| Interfaces.CountersFromKeys | agent_based/opnsense.py:12-20 | the six counters are the values under 'bytes received', 'packets received', 'input errors', 'bytes transmitted', 'packets transmitted' and 'output errors', in that order, and None when a key is missing |
| Interfaces.CountersIgnoreOtherKeys | agent_based/opnsense.py:12-20 | a statistics entry that is not a counter key does not affect the counters |
| Interfaces.LineSpeed | agent_based/opnsense.py:109 | the speed is int() of the text before the first blank of the line rate; a non-string line rate raises AttributeError |
| Interfaces.LineRateSpeed | agent_based/opnsense.py:109 | a line rate such as "1000 Mbit/s" gives the number before the blank |
| Interfaces.BeforeFirstToken | agent_based/opnsense.py:109 | the text before the first separator is the separator-free prefix |
| Interfaces.TypeOf | agent_based/opnsense.py:110 | a string type value is mapped by the type table, and anything else raises AttributeError |
| Interfaces.ParseLine | agent_based/opnsense.py:99-113 | a line without a description fails with KeyError, and a parsed line is stored under its description |
| Interfaces.ParseStatistics | agent_based/opnsense.py:104-112 | the interface's description and alias are both the name |
| Interfaces.ParseLineSpec | agent_based/opnsense.py:99-113 | a line parses iff it has a description, and statistics with an index, a line rate whose leading number int() accepts, and a string type. The interface then carries the index, the speed, the mapped type and the counters. A missing key raises KeyError, and a non-string line rate raises AttributeError |
| Interfaces.InterfacesSection | agent_based/opnsense.py:92-115 | the parse succeeds iff every line does |
| Interfaces.ParseInterfaces | agent_based/opnsense.py:92-115 | the loop filling the dict line by line returns the specified section |
| Interfaces.Entries | agent_based/opnsense.py:98-113 | a parsing section has one entry per line, keyed by that line's description, and the dict is built from them |
| Interfaces.InterfacesCover | agent_based/opnsense.py:98-113 | every description is a key of the section, each held once |
| Interfaces.InterfacesOrder | agent_based/opnsense.py:98-115 | interfaces are stored in order of the first line with each description |
| Interfaces.InterfacesLastWins | agent_based/opnsense.py:104-113 | the last line with a description decides the interface stored under it |
| Interfaces.InterfacesNamed | agent_based/opnsense.py:104-108 | each stored interface has its key as description and alias |
| Interfaces.DictOfValues | agent_based/opnsense.py:104-108 | storing entries that carry their key as description and alias keeps that true for the dict |
| Interfaces.ReplacedValues | agent_based/opnsense.py:104-108 | replacing an entry with one named by its key keeps every entry named by its key |
| Firewall.DiscoverFirewall | agent_based/opnsense_firewall.py:45-50 | one service iff either section is present and non-empty, and none otherwise |
| Firewall.Usage | agent_based/opnsense_firewall.py:59-75 | one levelled value succeeds iff both int() conversions do, and otherwise fails with the first conversion's exception |
| Firewall.CheckFirewall | agent_based/opnsense_firewall.py:53-75 | a missing pf_states section is not subscriptable and raises TypeError |
| Firewall.CheckFirewallSpec | agent_based/opnsense_firewall.py:53-75 | the check succeeds iff both sections are there and all four numbers convert. It then gives check_levels of int(current) with the pf_states metric, bounded (0, int(limit)), before check_levels of int(used) with the aliases metric, bounded (0, int(size)). Each uses its own upper levels: CRIT iff the count is at least crit, WARN iff it is at least warn but below crit |
| Firewall.CheckFirewallStrings | agent_based/opnsense_firewall.py:59-75 | counts written as decimal strings reach the metrics as the agent's numbers |
| Firmware.DiscoverFirmware | agent_based/opnsense_firmware.py:44-46 | one service iff the section is non-empty |
| Firmware.DiscoverBusiness | agent_based/opnsense_firmware.py:82-84 | one service iff product_id is 'opnsense-business' |
| Firmware.SecondsPart | agent_based/opnsense_firmware.py:57 | a timedelta's .seconds lies in [0, 86400) and differs from the delta by whole days |
| Firmware.SecondsPartDays | agent_based/opnsense_firmware.py:57 | adding whole days does not change .seconds |
| Firmware.FirmwareItems | agent_based/opnsense_firmware.py:49-69 | the first result is always OK "<series> (<nickname>)". Without a last check only the status text follows. Otherwise come the age against the last_check levels, the status text iff the status is 'update', and finally the updates metric, equal to the number of upgrade packages |
| Firmware.CheckFirmwareNoLastCheck | agent_based/opnsense_firmware.py:50-54 | without a last check the check gives only the release and the status text |
| Firmware.CheckFirmwareNeverWarnsAfterADay | agent_based/opnsense_firmware.py:57-65 | as written, a warn level of a day or more is never breached, however old the last check |
| Firmware.CheckFirmwareOneDayLate | agent_based/opnsense_firmware.py:57-65 | as written, a last check 25 hours old is reported as 3600 seconds, and levels of two and four hours stay OK |
| Firmware.IntendedAgeFollowsLevels | agent_based/opnsense_firmware.py:57-65 | with the elapsed time as age: CRIT from the crit age on, WARN from the warn age on, OK before |
| Firmware.IntendedAgreesWithinADay | agent_based/opnsense_firmware.py:57 | as written and as intended agree while the last check is less than a day old |
| Firmware.CheckFirmwareUpToDate | agent_based/opnsense_firmware.py:49-69 | the up-to-date sample gives the release, OK "Last update check" with its metric, and 0 updates |
| Firmware.ExpireLevels | agent_based/opnsense_firmware.py:92 | an absent 'expiredays' means lower levels (60, 30) |
| Firmware.DaysUntil | agent_based/opnsense_firmware.py:89 | .days is the whole number of days to the expiry, rounded down |
| Firmware.CheckBusiness | agent_based/opnsense_firmware.py:87-96 | the check fails with KeyError exactly when there is no licence expiry |
| Firmware.CheckBusinessLevels | agent_based/opnsense_firmware.py:87-96 | the licence days: CRIT below the crit days, WARN below the warn days, OK otherwise; the metric carries the days |
| Firmware.CheckBusinessExamples | agent_based/opnsense_firmware.py:87-96 | an expiry 278 days away is OK on the defaults, WARN with (360, 180), and CRIT with (360, 300) |
| Gateway.ParseTime | agent_based/opnsense_gateway.py:39-46 | '~' and only '~' gives None, and any other successful parse gives a number. A string of fewer than two words fails with IndexError at parts[1], which is the only IndexError. Any other failure is float()'s ValueError |
| Gateway.Scaled | agent_based/opnsense_gateway.py:44-46 | a number in "ms" is divided by 1000, in any other unit it is kept, and a float() failure passes through |
| Gateway.ParseTimeTokens | agent_based/opnsense_gateway.py:39-46 | "<n> <unit>" reads as float(n), divided by 1000 iff the unit is "ms", and fails as float(n) does |
| Gateway.ParseTimeDecimal | agent_based/opnsense_gateway.py:39-46 | "<whole>.<frac> ms" reads as whole.frac / 1000 seconds, and with any other unit as whole.frac |
| Gateway.DecimalToken | agent_based/opnsense_gateway.py:43-45 | a decimal literal is a single word not starting with '~', and float() reads it as its value |
| Gateway.DropLastTwo | agent_based/opnsense_gateway.py:58 | gw['loss'][:-2] is the text without its last two characters, or empty when it is shorter |
| Gateway.ParseLoss | agent_based/opnsense_gateway.py:55-58 | '~' and only '~' gives None; otherwise the number before " %", and a failure is float()'s ValueError |
| Gateway.ParseLossDecimal | agent_based/opnsense_gateway.py:55-58 | "<whole>.<frac> %" reads as the percentage whole.frac |
| Gateway.NormaliseGateway | agent_based/opnsense_gateway.py:54-62 | a gateway converts iff its loss, delay and stddev parse. Loss, delay and stddev are then the parsed values, a '~' monitor becomes None, and name and status are unchanged |
| Gateway.ParseGateways | agent_based/opnsense_gateway.py:49-67 | the loop normalising each gateway in place, then keying by name, gives the specified section |
| Gateway.ParseSucceeds | agent_based/opnsense_gateway.py:54-62 | the parse succeeds iff every gateway converts, and keeps them in order, each converted on its own |
| Gateway.ByName | agent_based/opnsense_gateway.py:64-67 | keying by name has at most as many entries as gateways |
| Gateway.ByNameLookup | agent_based/opnsense_gateway.py:64-67 | a name is absent iff no gateway has it, and otherwise maps to the last gateway of that name |
| Gateway.DictOfLength | agent_based/opnsense_gateway.py:64-67 | a dict comprehension has at most as many entries as its input |
| Gateway.AssignLength | agent_based/opnsense_gateway.py:64-67 | one assignment adds at most one entry |
| Gateway.DiscoverGateways | agent_based/opnsense_gateway.py:76-82 | the services are exactly the names of gateways with a delay, so a gateway whose delay is None is excluded |
| Gateway.DiscoverGatewaysAppend | agent_based/opnsense_gateway.py:79-82 | discovery keeps section order: two parts of a section give the first part's services, then the second's |
| Gateway.DiscoverGatewaysAllDelayed | agent_based/opnsense_gateway.py:79-82 | when every gateway has a delay, discovery yields every name in section order |
| Gateway.Names | agent_based/opnsense_gateway.py:82 | the items are the gateways' names, in order |
| Gateway.StatusResult | agent_based/opnsense_gateway.py:95-98 | OK "<status>" iff the status equals params' status, which defaults to 'Online'; otherwise WARN "<status> (expected: <exp>)" |
| Gateway.CheckGateway | agent_based/opnsense_gateway.py:85-115 | an unknown item yields nothing. A gateway whose delay is absent or zero yields only the status result. A truthy delay with no loss raises TypeError in check_levels. Every successful check starts with the status result |
| Gateway.CheckMonitored | agent_based/opnsense_gateway.py:100-115 | with a truthy delay the check gives the status and the monitor. Then comes check_levels of rtt against the delay levels (default (0.1, 0.2)) with the rta metric, and of loss against the loss levels (default (10, 20)) with the pl metric. For each: CRIT iff the value is at least crit, WARN iff it is at least warn but below crit |
| Gateway.DefaultLevelsExample | agent_based/opnsense_gateway.py:100-115 | on the default levels a loss of 100 % is CRIT and a round trip of 0.15 s is WARN |
| Gateway.DiscoveredChecks | agent_based/opnsense_gateway.py:76-98 | every discovered gateway is found by the check, has a delay, and the check crashes or starts with its status result |
| Snapshot.UnitFactor | agent_based/opnsense_snapshot.py:40-44 | the suffixes k, m and g, and only those, have a factor: 1024, 1024² and 1024³ |
| Snapshot.ParseSize | agent_based/opnsense_snapshot.py:39-45 | an empty size raises IndexError at size[-1]. A last character other than k, m or g in either case raises KeyError before the number is read. Otherwise the rest is read as a float, and the only other failure is ValueError |
| Snapshot.ParseSizeSuffix | agent_based/opnsense_snapshot.py:39-45 | a number followed by a unit suffix is float(number) times the factor, truncated toward zero, and ValueError when float() fails |
| Snapshot.ScaledWhole | agent_based/opnsense_snapshot.py:45 | a whole number of units scales exactly |
| Snapshot.ParseSizeInteger | agent_based/opnsense_snapshot.py:39-45 | "<n>K", "<n>m" and so on give n times the unit, in either case of the suffix |
| Snapshot.ParseSizeDecimal | agent_based/opnsense_snapshot.py:39-45 | "<whole>.<frac><u>" gives the decimal value times the unit, truncated |
| Snapshot.ParseSizeExamples | agent_based/opnsense_snapshot.py:39-45 | "886M" is 929038336 bytes and "2.26G" is 2426656522 bytes |
| Snapshot.GigabyteExample | agent_based/opnsense_snapshot.py:39-45 | "2.26G" is 2426656522 bytes |
| Snapshot.TwoPointTwentySix | agent_based/opnsense_snapshot.py:45 | the literal 2.26 reads as 2.26 |
| Snapshot.GigabyteScale | agent_based/opnsense_snapshot.py:45 | int(2.26 * 1024³) is 2426656522 |
| Snapshot.ParseSnapshotsSpec | agent_based/opnsense_snapshot.py:48-60 | parsing fails iff some size fails. Otherwise it keeps order and length. Each entry copies name and created, has current iff 'N' is in active and reboot iff 'R' is, and carries the parsed size |
| Snapshot.DiscoverSnapshot | agent_based/opnsense_snapshot.py:69-73 | one service iff the section is non-empty |
| Snapshot.MinCreated | agent_based/opnsense_snapshot.py:94 | min() is the creation time of one of the snapshots, and no snapshot was created earlier |
| Snapshot.MaxSize | agent_based/opnsense_snapshot.py:103 | max() is the size of one of the snapshots, and no snapshot is bigger |
| Snapshot.RunningResult | agent_based/opnsense_snapshot.py:83-86 | OK iff running is unset or names the current snapshot, WARN otherwise |
| Snapshot.InactiveItems | agent_based/opnsense_snapshot.py:91-110 | no inactive snapshots give nothing, and some give exactly four items |
| Snapshot.CheckSnapshot | agent_based/opnsense_snapshot.py:76-110 | the check fails, with RuntimeError from next(), iff there is no current or no next-boot snapshot. Otherwise it starts with the running result for the first current snapshot |
| Snapshot.CheckNextBoot | agent_based/opnsense_snapshot.py:88-110 | WARN "Next boot: <name>", naming the first next-boot snapshot, appears iff the current snapshot is not the next-boot target; the inactive items follow |
| Snapshot.OldestInactive | agent_based/opnsense_snapshot.py:91-94 | the minimum over the inactive snapshots is an inactive snapshot's creation time, and none is older |
| Snapshot.BiggestInactive | agent_based/opnsense_snapshot.py:91-103 | the maximum over the inactive snapshots is an inactive snapshot's size, and none is bigger |
| Snapshot.InactiveReport | agent_based/opnsense_snapshot.py:91-110 | nothing more is reported iff no snapshot is inactive. Otherwise come the oldest inactive snapshot's age, truncated, with the oldest metric, then the biggest inactive size with the maxsize metric, in that order |
| Snapshot.OldestAge | agent_based/opnsense_snapshot.py:93-96 | the reported age is the truncated age of an inactive snapshot, and none is older |
| Snapshot.AgesBelow | agent_based/opnsense_snapshot.py:93-96 | the earliest creation time gives the largest truncated age |
| Snapshot.InactiveLayout | agent_based/opnsense_snapshot.py:95-110 | the four items are the age result and metric, then the size result and metric, against their levels |
| Snapshot.TruncMonotone | agent_based/opnsense_snapshot.py:96 | truncation toward zero is monotone |
| Snapshot.SampleCheck | agent_based/opnsense_snapshot.py:76-110 | on the sample section, for any parameters, the check gives the running result, then an age of 181020 seconds and a size of 929038336 bytes |
| Snapshot.LevelledItems | agent_based/opnsense_snapshot.py:95-110 | a levelled value with a metric and no boundaries is its result and its metric |
| Snapshot.CheckExampleDefaults | agent_based/opnsense_snapshot.py:76-110 | without parameters, everything on the sample is OK |
| Snapshot.CheckExampleRunning | agent_based/opnsense_snapshot.py:83-86 | an unexpected running snapshot gives WARN naming the expected one |
| Snapshot.CheckExampleLevels | agent_based/opnsense_snapshot.py:95-110 | levels of one day on the age and of 512 MiB on the size both give WARN on the sample |
| Unbound.DiscoverUnbound | agent_based/opnsense_unbound.py:46-48 | one service iff the section is non-empty |
| Unbound.StatusItem | agent_based/opnsense_unbound.py:56-59 | "Status <status>" is OK iff the status is 'ok', and WARN for anything else, including an absent status |
| Unbound.RateTime | agent_based/opnsense_unbound.py:62 | the rate time is float(time.now) when the section has it, and the current time otherwise |
| Unbound.CounterAt | agent_based/opnsense_unbound.py:66 | a missing counter raises KeyError, and a present one is int() of its value |
| Unbound.TotalRequests | agent_based/opnsense_unbound.py:64-72 | four requests with keys "opnsense_unbound.total_<c>" for queries, cachehits, cachemiss and recursivereplies, in that order |
| Unbound.QueryTypeRequests | agent_based/opnsense_unbound.py:93-104 | one request per query type, in dict order. The key and the metric are lower-cased, and the label keeps the type as given |
| Unbound.RcodeRequests | agent_based/opnsense_unbound.py:107-118 | one request per answer code, in dict order. The key and the metric are lower-cased, and the label keeps the code as given |
| Unbound.RecursionItems | agent_based/opnsense_unbound.py:76-90 | a missing recursion time raises KeyError. The check goes on iff float() converts the value, and then gives an OK result and the metric |
| Unbound.CacheItem | agent_based/opnsense_unbound.py:121-128 | a cache count fails iff its conversion does. Otherwise it gives OK "Cache Count <Name>" and the "<name>_cache_count" metric of the integer |
| Unbound.ReportCacheCounts | agent_based/opnsense_unbound.py:121-128 | the loop over msg, rrset, infra and key returns the specified cache items, and the first count int() rejects aborts it |
| Unbound.CheckUnbound | agent_based/opnsense_unbound.py:51-128 | the check against the value store gives the specified store and outcome. Samples stored before an abort stay stored |
| Unbound.UnboundAborts | agent_based/opnsense_unbound.py:62-128 | the check aborts iff the rate time, a recursion time or a cache count fails to convert; a failing rate counter never aborts it |
| Unbound.UnboundStatusFirst | agent_based/opnsense_unbound.py:56-59 | a successful check starts with the status result, which is OK iff the status is 'ok' |
| Unbound.CacheCountsInOrder | agent_based/opnsense_unbound.py:121-128 | with all four counts converting: one result and one metric per cache, in the order msg, rrset, infra, key |
| Unbound.CacheItemPair | agent_based/opnsense_unbound.py:121-128 | a cache whose count converts yields its result and metric |
| Unbound.TryMapFour | agent_based/opnsense_unbound.py:121-128 | four conversions that all succeed give their four values |
| Unbound.FlattenFour | agent_based/opnsense_unbound.py:121-128 | the items of four caches are their concatenation |
| Unbound.PrefixCancel | agent_based/opnsense_unbound.py:95 | equal keys after a common prefix have equal names |
| Unbound.LowerKey | agent_based/opnsense_unbound.py:95 | a lower-cased key is the lower-cased prefix then the lower-cased name, with the kind of counter at position 17 |
| Unbound.RateKeysDistinct | agent_based/opnsense_unbound.py:64-112 | the store keys of totals, query types and answer codes never collide, and within each kind they are distinct when the names differ after lower-casing |
| Unbound.TotalKeys | agent_based/opnsense_unbound.py:64-66 | the total keys carry 't' at position 17 and are pairwise distinct |
| Unbound.QueryTypeKeys | agent_based/opnsense_unbound.py:95 | a query-type key is the lower-cased prefix and name, with 'q' at position 17 |
| Unbound.RcodeKeys | agent_based/opnsense_unbound.py:109 | an answer-code key is the lower-cased prefix and code, with 'r' at position 17 |
| Unbound.KeysApart | agent_based/opnsense_unbound.py:64-112 | keys of different kinds, or of distinct names within a kind, differ |
| Unbound.AllKeysApart | agent_based/opnsense_unbound.py:64-112 | all rate keys of one check are pairwise distinct |
| Unbound.TotalKeysDistinct | agent_based/opnsense_unbound.py:64-66 | the four total counters have four keys |
| Unbound.UnboundRatesIsolated | agent_based/opnsense_unbound.py:64-118 | a failure is isolated: every rate counter yields exactly what it would yield alone against the previous check's store, whatever happens to the others |
| Vip.DiscoverCarp | agent_based/opnsense_vip.py:50-55 | one service iff the carp section is truthy |
| Vip.FilterSnocCount | agent_based/opnsense_vip.py:77-87 | one more VIP adds one to a count iff it belongs to the counted family |
| Vip.CountVips | agent_based/opnsense_vip.py:73-87 | the counting loop gives, for each of carp and ipalias, the number of MASTER VIPs and the number of VIPs with any other status |
| Vip.FamilySplit | agent_based/opnsense_vip.py:77-87 | master plus backup equals the number of VIPs of that mode |
| Vip.OtherModesUncounted | agent_based/opnsense_vip.py:77-87 | a VIP of any other mode, vrrp2 say, changes no counter |
| Vip.CountMetrics | agent_based/opnsense_vip.py:88-128 | the eight items carry the four counts as metrics. Each family's boundary is (0, number of VIPs of that mode). Master levels apply to both master counts and backup levels to both backup counts |
| Vip.CarpThresholdExamples | agent_based/opnsense_vip.py:88-107 | 2 masters with lower levels (3, 2) give WARN, and 1 backup with upper levels (1, 1) gives CRIT |
| Vip.CheckCarp | agent_based/opnsense_vip.py:58-128 | a falsy carp section yields nothing, and int() failing on demotion aborts the check. A missing VIP section raises TypeError at the loop. Otherwise: OK with status_msg or 'OK' when it is empty, the demotion metric, exactly one WARN "Maintenance Mode is active" iff maintenancemode is truthy, then the counters |
| Vip.InsertByInterface | agent_based/opnsense_vip.py:154 | insertion adds the VIP to the multiset and one to the length |
| Vip.SortByInterface | agent_based/opnsense_vip.py:154 | sorting by interface is a permutation |
| Vip.InsertSorted | agent_based/opnsense_vip.py:154 | inserting into a sorted list keeps it sorted |
| Vip.SortSorted | agent_based/opnsense_vip.py:154 | the sorted list is ordered by interface |
| Vip.InsertStable | agent_based/opnsense_vip.py:154 | insertion keeps the VIPs of every interface in their order |
| Vip.FilterShift | agent_based/opnsense_vip.py:154 | a common first element keeps the relation between two filtered lists |
| Vip.SortStable | agent_based/opnsense_vip.py:154 | the sort is stable: each interface's VIPs keep their section order |
| Vip.GroupByInterface | agent_based/opnsense_vip.py:155 | groupby yields no group iff the input is empty, the first group has the first VIP's interface, and no group is empty |
| Vip.GroupKeys | agent_based/opnsense_vip.py:155 | the group keys are the groups' interfaces, in order |
| Vip.FilterCons | agent_based/opnsense_vip.py:155 | filtering a list is filtering its head, then its tail |
| Vip.GroupSorted | agent_based/opnsense_vip.py:154-156 | grouping a sorted list yields each interface once, in increasing order, with all of its VIPs in order, and covers every interface |
| Vip.GroupJoin | agent_based/opnsense_vip.py:155 | a first VIP that joins the next group keeps the grouping properties |
| Vip.JoinKeys | agent_based/opnsense_vip.py:155 | joining keeps the keys of the later groups |
| Vip.JoinFilters | agent_based/opnsense_vip.py:155 | after joining, each group is still exactly its interface's VIPs |
| Vip.JoinCover | agent_based/opnsense_vip.py:155 | after joining, every interface still has a group |
| Vip.GroupStart | agent_based/opnsense_vip.py:155 | a first VIP that starts its own group keeps the grouping properties |
| Vip.StartAlone | agent_based/opnsense_vip.py:154-155 | in a sorted list, no later VIP shares the interface of a VIP starting its own group |
| Vip.StartFilters | agent_based/opnsense_vip.py:155 | a new group holds exactly the first VIP of its interface |
| Vip.StartCover | agent_based/opnsense_vip.py:155 | with a new group, every interface has a group |
| Vip.StartBelowRest | agent_based/opnsense_vip.py:154-155 | the first interface of a sorted list is below every later group's |
| Vip.StatusEntries | agent_based/opnsense_vip.py:156 | discovery_status lists (vhid, status) of the VIPs, in order |
| Vip.GroupServices | agent_based/opnsense_vip.py:155-156 | one service per group, with the interface as item and its VIPs' status entries |
| Vip.VipServices | agent_based/opnsense_vip.py:159-160 | one service per VIP, with item "<interface>@<vhid>", its interface and vhid, and its own status entry |
| Vip.DiscoverVip | agent_based/opnsense_vip.py:142-160 | 'none' yields nothing, and a missing section raises TypeError. Without groupby the services are one per considered VIP, where 'master' keeps only MASTER entries |
| Vip.DiscoverGrouped | agent_based/opnsense_vip.py:142-157 | groupby='interface' yields one service per interface among the considered VIPs, in increasing order. Its discovery_status lists that interface's VIPs in section order. Every considered interface has a service, and every service's item is a considered VIP's interface |
| Vip.ServiceItems | agent_based/opnsense_vip.py:156 | the items are the services' items, in order |
| Vip.GroupedServices | agent_based/opnsense_vip.py:153-157 | the grouped services of any VIP list have increasing items and are per interface. They cover every interface and name no other |
| Vip.ServicesFromGroups | agent_based/opnsense_vip.py:155-157 | services made from non-empty groups that each hold exactly their interface's VIPs name only interfaces of those VIPs |
| Vip.ServicesIncreasing | agent_based/opnsense_vip.py:155-156 | increasing group keys give increasing service items |
| Vip.ServicesFiltered | agent_based/opnsense_vip.py:155-156 | groups that are the per-interface lists give the per-interface discovery statuses |
| Vip.ServicesCovering | agent_based/opnsense_vip.py:155-156 | groups that cover the VIPs give services that cover them |
| Vip.GroupsOfSorted | agent_based/opnsense_vip.py:154-155 | grouping the sorted VIPs groups the original ones: increasing, per interface, covering |
| Vip.CoverPermuted | agent_based/opnsense_vip.py:154 | groups covering a list cover any permutation of it |
| Vip.LastStatus | agent_based/opnsense_vip.py:173-175 | the inner loop leaves the variable's previous value when no entry has the vhid, and otherwise the status of the last entry with it |
| Vip.FindExpected | agent_based/opnsense_vip.py:173-175 | the inner loop over discovery_status computes LastStatus |
| Vip.VipResult | agent_based/opnsense_vip.py:177-180 | OK "<status>: <subnet>" iff the status equals the expected one, otherwise WARN "... (expected: X)"; never CRIT or UNKNOWN |
| Vip.VipFoldNext | agent_based/opnsense_vip.py:164-180 | the loop over one more VIP is one more step |
| Vip.CheckVip | agent_based/opnsense_vip.py:163-180 | the loop, with expected_status persisting from one VIP to the next, gives the specified outcome. A missing section raises TypeError |
| Vip.VipFoldRaised | agent_based/opnsense_vip.py:164-180 | once the loop has failed, the rest of the section changes nothing |
| Vip.VipFoldResults | agent_based/opnsense_vip.py:164-180 | one result per VIP on params' interface, and on its vhid when given, in order, each OK or WARN |
| Vip.VipFoldConfigured | agent_based/opnsense_vip.py:170-171 | with expected_status configured, the check never fails, and each selected VIP is compared against that status |
| Vip.FirstSelectedUnbound | agent_based/opnsense_vip.py:170-177 | without expected_status, a first selected VIP whose vhid has no discovery_status entry fails with UnboundLocalError |
| Vip.VipFoldUnselected | agent_based/opnsense_vip.py:164-168 | a section with no selected VIP yields nothing and leaves the variable unbound |
| Vip.VipFoldAllOk | agent_based/opnsense_vip.py:170-178 | when every selected VIP finds its own status as the last entry with its vhid, the check is all OK |
| Vip.OwnEntry | agent_based/opnsense_vip.py:156-175 | with distinct vhids, the last entry for a VIP's vhid is the VIP's own status |
| Vip.FilterSame | agent_based/opnsense_vip.py:164-168 | filters with equal conditions are equal |
| Vip.GroupedCheckAfterDiscovery | agent_based/opnsense_vip.py:153-180 | checking a grouped service right after discovery reports every VIP of its interface, all OK, when the vhids on that interface are distinct |
| Vip.CheckInterfaceGroup | agent_based/opnsense_vip.py:163-180 | an interface checked against its own VIPs' status entries with distinct vhids is all OK, one result per VIP |
| IPsec.ParsePhase2 | agent_based/opnsense_ipsec.py:51-56 | an empty table makes parse_jsonl return None, and the comprehension raises TypeError on it. Otherwise the result is exactly the INSTALLED children |
| IPsec.ParsePhase2Order | agent_based/opnsense_ipsec.py:51-56 | parsing keeps the children's order: the parse of a concatenation is the concatenation of the parses |
| IPsec.BaselineOf | agent_based/opnsense_ipsec.py:71-85 | the version is recorded iff some Phase-1 is named by the connection's uuid, and it is the first such Phase-1's version. There is one (name, encr_alg, integ_alg, protocol) record per child of the connection, in order |
| IPsec.DiscoverIpsec | agent_based/opnsense_ipsec.py:65-86 | one service per connection, named by its description and carrying its baseline. A missing Phase-1 or Phase-2 section raises TypeError iff some connection exists |
| IPsec.FieldText | agent_based/opnsense_ipsec.py:186-203 | a field is rendered as is when it matches its baseline, and otherwise with "(expected: ...)" |
| IPsec.VersionResult | agent_based/opnsense_ipsec.py:117-123 | WARN "<version> (expected: X)" iff the expected version is truthy and differs, otherwise OK with the live version |
| IPsec.TimesEight | agent_based/opnsense_ipsec.py:139 | the byte counter is multiplied by 8, and a failing int() still fails |
| IPsec.RateKeysDistinct | agent_based/opnsense_ipsec.py:137-160 | the four value-store keys of a connection are distinct, and each begins with "check_opnsense_ipsec.<uuid>" |
| IPsec.RatesIndependent | agent_based/opnsense_ipsec.py:136-160 | each rate is in its own try block: the rate items are those of each counter taken alone, in the order bits in, packets in, bits out, packets out |
| IPsec.ChildNotice | agent_based/opnsense_ipsec.py:185-203 | the notice is the child's name, then protocol, integrity (only when the baseline has a truthy one) and encryption, each with its expected value when it deviates |
| IPsec.ChildResult | agent_based/opnsense_ipsec.py:178-208 | a baseline child without a live namesake gives WARN "<name>: not found". Otherwise its first namesake is compared: WARN iff some compared field deviates, else OK. The result is never CRIT or UNKNOWN |
| IPsec.UnexpectedResults | agent_based/opnsense_ipsec.py:210-219 | at most one WARN per live child, and nothing else |
| IPsec.UnexpectedResultsEmpty | agent_based/opnsense_ipsec.py:210-219 | no child is reported as unexpected when every live child has a baseline namesake |
| IPsec.UnexpectedNext | agent_based/opnsense_ipsec.py:211-219 | the loop over one more child adds exactly that child's result |
| IPsec.ComparedResults | agent_based/opnsense_ipsec.py:178-208 | one result per baseline child, in baseline order |
| IPsec.ReportLayout | agent_based/opnsense_ipsec.py:116-219 | a connected report holds, in order: the version result; the install time and rates; OK "Childs" with the childs metric counting the connection's live children; one result per baseline child; and the unexpected children last |
| IPsec.ReportParts | agent_based/opnsense_ipsec.py:116-219 | the report is the concatenation of its five parts |
| IPsec.Layout | agent_based/opnsense_ipsec.py:116-219 | where each part of a concatenated report sits |
| IPsec.CheckUnknownItem | agent_based/opnsense_ipsec.py:97-101 | an item that no connection describes yields nothing and leaves the value store alone |
| IPsec.CheckPhase1Missing | agent_based/opnsense_ipsec.py:103-108 | a connection without a Phase-1 gives exactly UNKNOWN "Phase1 not found" |
| IPsec.CheckNotConnected | agent_based/opnsense_ipsec.py:110-112 | a connection whose first Phase-1 is not connected gives exactly CRIT "Phase1 not connected" |
| IPsec.CheckConnected | agent_based/opnsense_ipsec.py:114-219 | a connected connection gives the connected report over its live children, and the store is the one its rates leave |
| IPsec.CheckAfterDiscovery | agent_based/opnsense_ipsec.py:65-219 | a check against the baseline discovered from the same sections is all OK, when the connection's children have distinct names |
| IPsec.ReportAllOk | agent_based/opnsense_ipsec.py:116-219 | a report is all OK when its version, rates and baseline comparisons are OK and no child is unexpected |
| IPsec.NoLevelsAllOk | agent_based/opnsense_ipsec.py:125-176 | the install time and the Childs count carry no levels, so they are OK |
| IPsec.ComparedAllOk | agent_based/opnsense_ipsec.py:178-208 | the comparisons are all OK when each is |
| IPsec.BaselineSelfCheck | agent_based/opnsense_ipsec.py:76-219 | children with distinct names, compared with the baseline taken from themselves, are all OK, and none is unexpected |
| IPsec.CompareBaseline | agent_based/opnsense_ipsec.py:178-208 | the outer for/else loop gives ComparedResults |
| IPsec.CompareChild | agent_based/opnsense_ipsec.py:179-208 | one round of that loop, building the notice field by field, gives ChildResult |
| IPsec.ReportUnexpected | agent_based/opnsense_ipsec.py:210-219 | the nested for/else loop gives UnexpectedResults |
| IPsec.ChildrenOf | agent_based/opnsense_ipsec.py:163-167 | the comprehension keeps exactly the connection's children, in order |
| IPsec.CheckIpsec | agent_based/opnsense_ipsec.py:89-219 | the check returns the specified output and leaves the specified value store. A missing connection or Phase-1 section raises TypeError, and a missing 'discovered' parameter raises KeyError. A missing Phase-2 section raises TypeError after the rates have been stored |
| IPsec.ChildServiceItem | agent_based/opnsense_ipsec.py:237-247 | a child has a service item iff it is INSTALLED and some connection has its ikeid as uuid. The item is "<description> <local-ts> > <remote-ts>" of the first such connection |
| IPsec.DiscoverIpsecChildren | agent_based/opnsense_ipsec.py:233-247 | a missing Phase-2 section raises TypeError. With both sections, discovery succeeds and every item is the service item of some child |
| IPsec.DiscoverChildrenIn | agent_based/opnsense_ipsec.py:237-247 | discovery over a child list succeeds whenever the connection section is present |
| IPsec.DiscoveredChildItems | agent_based/opnsense_ipsec.py:237-247 | the discovered items are exactly the children's service items: each comes from a child, and every child's item is discovered |
| IPsec.DiscoveredSnoc | agent_based/opnsense_ipsec.py:237-247 | one more child adds its service item, when it has one |
| IPsec.DiscoveredFromChildren | agent_based/opnsense_ipsec.py:237-247 | every discovered item is some child's service item |
| IPsec.DiscoveredEveryChild | agent_based/opnsense_ipsec.py:237-247 | every child's service item is discovered |
| IPsec.RenderTimeSign | agent_based/opnsense_ipsec.py:250-251 | a negative time is rendered by its magnitude followed by " ago", any other time as the plain timespan |
| IPsec.ChildReport | agent_based/opnsense_ipsec.py:269-298 | the child's report is: protocol, "E:<alg>:<keysize>", "I:..." and "D:..." when present, then three lifetimes of two items each. A float() failure on any lifetime fails the check |
| IPsec.ChildReportLifetimes | agent_based/opnsense_ipsec.py:276-298 | the last six items are check_levels of install-time, rekey-time and life-time with the install_time, rekey_time and life_time metrics and no levels. A failed report carries the first failing conversion's exception |
| IPsec.CheckIpsecChild | agent_based/opnsense_ipsec.py:254-298 | a missing Phase-2 section raises TypeError, and so does a missing connection section once there is a child. With both sections, the results are the reports of the children whose service item is the item, in section order, or the first such report's failure |
| IPsec.CheckChildrenIn | agent_based/opnsense_ipsec.py:259-298 | an item that belongs to no child yields nothing, and a missing connection section raises TypeError at the first child |
| IPsec.Reports | agent_based/opnsense_ipsec.py:259-298 | no children give no results |
| IPsec.ReportsOk | agent_based/opnsense_ipsec.py:259-298 | the reports of several children succeed iff each child's report does |
| IPsec.ReportsOne | agent_based/opnsense_ipsec.py:259-298 | one child's reports are exactly its report |
| IPsec.CheckChildrenReports | agent_based/opnsense_ipsec.py:259-298 | the child check is the concatenated reports of exactly the children that belong to the item, in section order |
| IPsec.SingleChildReport | agent_based/opnsense_ipsec.py:259-298 | an item that exactly one child belongs to yields exactly that child's report |
| IPsec.ChildCheckMatchesDiscovery | agent_based/opnsense_ipsec.py:233-298 | child discovery succeeds on a present connection section. An item it does not yield gets no results, and a discovered item whose check succeeds gets at least eight results |

Decisions the model makes where the source leaves a choice:
- A section is `Option<seq<record>>` or `Option<record>`. `None` stands for both a missing section and an empty one: lib/utils.py:30-42 returns None for an empty table.
- A Python exception that ends a parse, discovery or check function is the `Raised` case of `Try`. Checkmk then discards the whole output of that call.
- Each `time.time()` or `datetime.now()` in a check is one `now` parameter, shared by every use within one call.
- `Result(notice=...)`, as written in the IPsec check, is modelled as a summary text. Checkmk renders the two differently; the model does not.
- Where a stale unit test and the code disagree, the model follows the code. This covers the `discovery_status` shape and the CARP labels in tests/unit/agent_based/test_opnsense_vip.py, and the Phase-1 version text in tests/unit/agent_based/test_opnsense_ipsec.py:76.

## Left out

- HTTP, sessions, TLS verification, argument parsing, `special_agent_main` and the section writer of lib/agent.py: these are I/O. The paging loop gets the server's answers as a sequence of pages, and answers that run out before the stop condition give None.
- The memoisation of `@cached_property` in lib/agent.py. It changes no value.
- `json.loads` in lib/utils.py: sections are already-decoded records.
- A required key missing from a record, which would raise KeyError: records are typed, so every required key is present. Optional keys (`integ-alg`, `dh-group`, `running`, `time.now` and the like) are `Option` fields and are modelled.
- The text rendering of `render.timespan`, `render.disksize`, `render.percent`, `"%.1f/s"` and the render functions passed to `check_levels`. A result's text is its label, and its numbers are in the metric.
- `notice_only` of `check_levels`: summary and details are not distinguished. This also leaves out agent_based/opnsense_vip.py:117, where the IPAlias Master count tests `carp_master == 0` instead of its own count. That only changes where the text is shown.
- The internals of Checkmk's `check_levels` and `get_rate`. They are specified, as the plug-in uses them, by their threshold semantics and by a key to (time, value) store that is written on every call and fails on a first sample, on time not advancing, or on a counter that goes backwards.
- How Checkmk persists the value store between runs. The model also leaves out what a crash does to a partly updated store, except the store a crashed IPsec check leaves.
- Floating point: decimals are Dafny `real`s, so IEEE rounding in delay, loss, size and time parsing is not modelled. `int()` on a real truncates toward zero.
- `datetime.strptime`, `datetime.fromisoformat` and `datetime.now()` in agent_based/opnsense_firmware.py and agent_based/opnsense_snapshot.py. Timestamps and the current time are passed in as numbers.
- `replace_macros`, `Secret.unsafe()` and pydantic validation in server_side_calls/agent_opnsense.py. Macro replacement is a function parameter, validation is AgentCommand.ParamsOf with its defaults, and a secret of None raises AttributeError at line 52.
- The unused `index` counter of `parse_opnsense_interfaces` (agent_based/opnsense.py:94,99). It computes nothing that the function returns.
- All graphing/*.py files, and the rulesets other than the migrations of rulesets/datasource.py: they are declarative configuration forms. The firewall plug-in names 'opnsense_firmware' as its ruleset (agent_based/opnsense_firewall.py:85), and the gateway ruleset names its levels 'rtt' and 'lost' (rulesets/opnsense_gateway.py:41,53). The model follows the check, which reads 'delay' and 'loss' (agent_based/opnsense_gateway.py:104,111).
- Text.Lower: only ASCII case mapping is modelled (A-Z to a-z). Python's `str.lower()` also maps other letters: the Kelvin sign becomes 'k', 'İ' becomes two characters, and a final sigma depends on context, so it does not distribute over concatenation. The keys it lowers at agent_based/opnsense_unbound.py:95,109 are Unbound's ASCII query-type and answer-code names. For the same reason, a size suffix is read as k, m or g only when it is an ASCII letter (agent_based/opnsense_snapshot.py:44).
- Numbers.ParseInt: only plain decimal literals are modelled, an optional sign and ASCII digits. Python's `int()` also accepts underscores between digits ('1_000') and non-ASCII decimal digits; the model raises ValueError on them. The agent writes counters as plain decimal numbers.
- Numbers.ParseFloat: only plain decimal literals are modelled, an optional sign and ASCII digits with at most one point. Python's `float()` also accepts exponents ('1e-05'), 'inf', 'nan', underscores and non-ASCII digits; the model raises ValueError on them. The numbers it reads here are dpinger's times and losses, Unbound's recursion times, IPsec lifetimes and snapshot sizes, which the agent passes through as plain decimals.
- IPsec.RenderTime: only the sign branch of `render_timespan` is modelled. The timespan text is a function parameter.
- The registration objects (`AgentSection` and `CheckPlugin`): only their parse, discovery and check functions and their default parameters are modelled.

## Findings

| source | as written | input that shows it | evidently intended | confidence | as-written member | corrected member |
|---|---|---|---|---|---|---|
| lib/agent.py:73-74 | `getVipStatus` stops after the first page with `total <= rowCount * (current + 1)`, where `current` is the page number the server echoes, starting at 1 | a server with 15 VIPs and 10 rows per page answers page 1 with total 15 and current 1. The loop stops there and returns 10 of the 15 rows | stop once the pages fetched so far hold the total: `total <= rowCount * current` | not executed | Agent.AsWrittenFifteenRows | Agent.IntendedFetchesAll |
| agent_based/opnsense_firmware.py:57 | the age of the last update check is `timedelta.seconds`: the seconds after the whole days, always under a day | a last check 25 hours old is reported as 3600 seconds, so levels of two and four hours stay OK. No level of a day or more, such as the ruleset's suggested seven days, is ever breached | the total elapsed time, `timedelta.total_seconds()` | not executed | Firmware.CheckFirmwareOneDayLate | Firmware.IntendedAgeFollowsLevels |

Agent.OSAPI.GetVipStatus models the paging loop as written. Agent.VipStatusIntended is the same loop with the corrected stop condition. Agent.IntendedFetchesAll proves that, against a consistent server, the corrected loop returns every row, and Agent.AsWrittenMissesRows proves that the written one loses the last page. Firmware.CheckFirmware is the check as written, and Firmware.CheckFirmwareIntended is the corrected one, which Firmware.IntendedAgeFollowsLevels relates to the levels.
