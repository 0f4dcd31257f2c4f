# Verified models of loxicmd's logic

loxicmd is the command line of the loxilb inference gateway. Most of it
passes flags to an HTTP API. This project models the parts that decide
something, as Dafny programs in the form the Go code has (classes and loops
where it updates, functions where it computes), and proves what those parts
are for.

- **Interface dump and replay** (`IntfDump`, `IntfReplay`, `DumpReplay`,
  `DumpTheorems`, `SubInterfaces`, `IntfApply`, `Entries`, `SavedReplay`,
  `HostLists`, `SavedHosts`, `FailingHosts`, `MasterReplay`, `LinkLines`,
  `HwTexts`). `save` writes
  every address, neighbour, forwarding entry and sub-interface twice, as a line
  of a flat script and as a record of a per-interface file; `apply` rebuilds commands from the files. `IntfDump.Dumper`
  holds the script, the files and the directories; every method states all it
  writes. The theorems say that after any run the two forms differ by exactly
  the records whose directory was missing and the sub-interfaces with a bar in
  their names; that a whole `save` loses none of its addresses, neighbours and
  forwarding entries; and which of them `apply --per-intf` runs again, by the
  type the interface was left with.
- **`create lb`** (`PortPairs`, `Endpoints`, `BandTriples`, `LBOptions`,
  `LoadBalancer`). From flag text through validation to one request for each
  protocol, with both Go maps walked in any order. The theorems say that the
  order does not matter, what the ports and endpoints of a posted request are in
  terms of the flag text, and that `--pd-disagg` always posts both roles.
- **Codecs that must agree** (`Firewall`, `RateLimits`, `SortKeys`, `Sorting`,
  `ApiKeyImport`, `UlclTable`).
- **Lifecycle verdicts** (`Lifecycle`): when restore, persist and snapshot
  succeed, and what their reports claim.
- **Appliance dispatch** (`Appliance`): from how the backend ended and what it
  printed to an exit code and an envelope.

`Text` holds Go's `strings`, `strconv` and `bufio.Scanner` as far as they are
needed; `ExitCodes` the exit-code taxonomy.

Oracles, given as parameters or fields: what the kernel lists for each link,
what the gateway answers, whether the gateway offers a feature, whether a JSON
body decodes, whether a checksum verifies, whether a file can be read or
written, and the order of a Go map. Names of interfaces are assumed to be as
the kernel allows them (shorter than 16, no white space), and addresses as Go
prints them (no line break).

## Where the code does not do what is said of it

- `save` says that the IP configuration is saved in the flat script
  (`cmd/dump/save.go:198`, `:217`), but the script is removed when the dump
  returns (`cmd/get/get_netlink.go:525`): applying it afterwards runs nothing
  (`SavedHosts.SaveThenApply`).
- `apply --per-intf` reads by the type file, and not every kind for every type:
  the forwarding entries of a sub-interface are saved and not read again, until
  a VxLAN link on it rewrites its type; those of a VxLAN link are no longer read
  again when another VxLAN link on it is listed later (`SavedHosts.EntriesReadAgainExactly`,
  `SavedReplay.VxlanRetypes`; hosts: `FailingHosts.SubInterfaceFdbLost`,
  `FailingHosts.VxlanFdbLost`).
- Interfaces whose name starts with a dot are not copied (`IntfDump.CopyAt`).
- Sub-interface names with a bar: the record cannot be split back
  (`DumpTheorems.SubRecordReplays`, both directions). Nor can the record of a
  master with one (`MasterReplay.MasterReadAgainExactly`).
- A sub-interface listed before its parent loses its record, since the parent's
  directory is not there yet (`SubInterfaces.SubInterfacesReplayExactly`; a host:
  `FailingHosts.ChildBeforeParentLost`).
- `delete firewall` sends keys that `create firewall` passes over, and numbers
  as they were typed (`Firewall.SameQueryExactly` gives the exact condition,
  `Firewall.OneArgDiffers` and `Firewall.LeadingZeroDiffers` the failures).
- The printed cell of model quotas cannot be given back to `set ratelimit` when
  it is empty or a model holds a comma (`RateLimits.SortedCellParses`).
- An imported key behind two or more bytes of white space can be cut short and
  still be accepted (`ApiKeyImport.WholeWordExactly`, `ApiKeyImport.CutShort`).
- Protocols of firewall rules sort as text (`SortKeys.FwProtoOrderNumericExactly`
  says exactly when that is their numeric order).
- A sort key can stand for two entries (`SortKeys.ConntrackKeyIdentifiesExactly`,
  `SortKeys.FwKeyIdentifiesExactly`, `SortKeys.EndPointKeyIdentifiesExactly`).
- The session table repeats rows from the third entry without an ident on
  (`UlclTable.OneRowEachExactly`).
- A comment in `cmd/lifecycle/restore.go` calls the asked mode authoritative;
  the code lets a mode in the body win (`Lifecycle.AskedModeDecidesOnlyWhenAbsent`).
- A clean body without a contract that comes with a non-2xx status is refused by
  that status, and under `--strict` by the contract instead
  (`Lifecycle.StrictOutcomeOnlyAdds`, `Lifecycle.StrictRenamesRefusal`).
- A backend that exits 8 beside a document that does not validate ends with 8 in
  human mode and with 6 in JSON mode (`Appliance.ModesAgreeExactly`,
  `Appliance.ModesDiffer`).
- The message of a killed change may name the backend's own operation id while
  the envelope carries the correlation id (`Appliance.MessageNamesRecoveryIdExactly`).

## Model

| member | source | states |
|---|---|---|
| `IntfDump.Dumper.AddLink` | cmd/get/get_netlink.go:213-326 | adds exactly the lines, directories and records of the link's kind, in order; -1 exactly when a lower or a master device cannot be looked up |
| `IntfDump.Dumper.AddTagged` | cmd/get/get_netlink.go:241-252 | one VLAN line and, behind the parent's file, one record for a tagged link |
| `IntfDump.Dumper.AddVxlan` | cmd/get/get_netlink.go:256-284 | the lines and files of a VxLAN link and of its lower device |
| `IntfDump.Dumper.AddMaster` | cmd/get/get_netlink.go:303-325 | membership of a bridge or bond, and the lines that enslave the link |
| `IntfDump.Dumper.AddAddr` | cmd/get/get_netlink.go:328-343 | one address line and one address record |
| `IntfDump.Dumper.AddNeigh` | cmd/get/get_netlink.go:345-415 | which entries are passed over, and of any other one line and one record, from each of which the entry's six bytes can be read back |
| `HwTexts.HwTextAt` | cmd/get/get_netlink.go:363-408 | an address prints as two lower-case hex digits a byte, the high one first, with ':' between the bytes |
| `HwTexts.ReadHwText` | cmd/get/get_netlink.go:363-408 | the printed address reads back as the address |
| `LinkLines.LinkSaidExactly` | cmd/get/get_netlink.go:213-326 | every line the script has about a link, in order, from what the kernel reports of it |
| `MasterReplay.ParentAndVlan` | cmd/get/get_netlink.go:243-244 | a name parent.vlan has that parent and that VLAN id |
| `IntfDump.Dumper.AddRoute` | cmd/get/get_netlink.go:417-443 | one route line and one record under the outgoing link |
| `IntfDump.Dumper.AppendFile` | cmd/get/get_netlink.go:143-201 | a record is one line behind its file, and nothing at all when the directory is missing |
| `IntfDump.Dumper.DumpLinks` | cmd/get/get_netlink.go:538-574 | the script, the files and the directories written by a whole save are those of the walk: bridges, bonds, all links, routes |
| `IntfDump.Dumper.Nlpdump` | cmd/get/get_netlink.go:514-618 | after a whole save the configuration directory holds the copy of what the walk wrote, and the flat script and the directory under /tmp are gone |
| `IntfDump.CopyAt` | cmd/get/get_netlink.go:609-611 | the copy holds the files of an interface, unless its name starts with a dot |
| `IntfDump.EffectsConcat` | cmd/get/get_netlink.go:514-566 | a run of the Add functions is the runs of its parts, one after the other |
| `IntfReplay.Replay` | cmd/dump/apply.go:236-409 | each reader runs, for every line of its file, the command built from that line |
| `IntfReplay.CommandsOfReader` | cmd/dump/apply.go:378-409 | the readers run the add commands in record order; the sub-interface reader runs one more after each |
| `IntfReplay.ApplyIpConfig` | cmd/dump/apply.go:114-142 | the lines of the given file are run in order, and nothing when it is not there |
| `DumpReplay.KeptOrLost` | cmd/get/get_netlink.go:54-70 | every record meant for a file is either in it or lost with a missing directory |
| `DumpReplay.PathsDistinct` | cmd/get/get_netlink.go:143-211 | no two record files of a dump share a path |
| `DumpReplay.ScriptLines` | cmd/get/get_netlink.go:46-52 | scanning the flat script gives back the lines written, in order |
| `DumpReplay.FileLines` | cmd/get/get_netlink.go:143-211 | scanning a record file gives back the records that reached it, in order, whatever else the run wrote |
| `DumpReplay.CommandIsLineOf` | cmd/dump/apply.go:236-348 | a rebuilt command is a line of its own kind and interface and of no other |
| `DumpTheorems.SubRecordSplits` | cmd/dump/apply.go:378-409 | splitting a saved record at the bar gives name, parent and VLAN id back |
| `DumpTheorems.SubRecordReplays` | cmd/dump/apply.go:390-398 | the rebuilt `ip link add` is the flat script's line exactly when the name holds no bar |
| `DumpTheorems.TaggedAgrees` | cmd/get/get_netlink.go:241-252 | a tagged link leaves as many lines as records of every interface and kind, and they say the same exactly when its name holds no bar or another kind or parent is asked for |
| `DumpTheorems.EventAgrees` | cmd/get/get_netlink.go:213-443 | every call of an Add function leaves as many lines as records of every interface and kind, and they say the same exactly unless it saves a sub-interface with a bar |
| `DumpTheorems.HistoryAgrees` | cmd/get/get_netlink.go:213-443 | the same of every run of them, in any order |
| `DumpTheorems.ReplayAgrees` | cmd/dump/apply.go:236-409 | for every run the flat script has exactly as many lines of a kind and interface as commands are rebuilt plus records lost, and they are equal in order exactly when none is lost and no sub-interface of it has a bar in its name |
| `DumpTheorems.DumpSettled` | cmd/get/get_netlink.go:514-566 | in a whole save every interface's directory is made before its records |
| `DumpTheorems.SaveReplays` | cmd/get/get_netlink.go:514-566 | for every host the addresses, neighbours and forwarding entries rebuilt are exactly, in order, the lines of the flat script |
| `DumpTheorems.TaggedOrphan` | cmd/get/get_netlink.go:143-151 | a sub-interface record is lost exactly when its parent's directory was not made before it |
| `SubInterfaces.HousesExactly` | cmd/get/get_netlink.go:213-326 | a call makes an interface's directory exactly when it saves that interface itself or a VxLAN link on it |
| `SubInterfaces.NoneLostExactly` | cmd/get/get_netlink.go:143-151 | a run loses no sub-interface record of a parent exactly when every tagged link on it comes after a link that makes its directory |
| `SubInterfaces.SubInterfacesReplayExactly` | cmd/dump/apply.go:378-409 | for every run the sub-interfaces rebuilt are those of the flat script, in order, exactly under that condition and when none has a bar in its name |
| `IntfApply.ApplyIpConfigPerInterface` | cmd/dump/apply.go:520-558 | the steps of the type in the type file, in order; nothing for a missing file or another type |
| `IntfApply.AddMaster` | cmd/dump/apply.go:482-518 | what is run for the master named in the master file, by its kind |
| `IntfApply.AddVxlan` | cmd/dump/apply.go:432-464 | two commands for every line of the info file |
| `IntfApply.AddBond` | cmd/dump/apply.go:419-430 | the bond, its mode when the file is there, and up |
| `IntfApply.AddRoutes` | cmd/dump/apply.go:350-376 | one replace command for every saved route |
| `SavedReplay.StepsExactly` | cmd/dump/apply.go:520-558 | which steps every type has: set up first, routes, the master last, the MTU of ports and bonds |
| `MasterReplay.SavedPuts` | cmd/get/get_netlink.go:113-131 | the master and info files of a saved interface hold the one line the last event on it gave them |
| `MasterReplay.MasterReadAgainExactly` | cmd/dump/apply.go:466-518 | for every run that left an interface under a bridge or a bond, apply sets a master by the flat script's own line and by no other, exactly when the master's name holds no bar |
| `MasterReplay.MasterEndsExactly` | cmd/dump/apply.go:466-474 | it ends with the interface taken down, put under its master and taken up |
| `MasterReplay.VxlanReadAgainExactly` | cmd/dump/apply.go:432-464 | for every run that left an interface below a VxLAN link, apply ends with adding that link with its id, source and device, and sets no master |
| `MasterReplay.BondReadBack` | cmd/dump/apply.go:419-430 | the bond mode that is saved is the one apply gives the bond |
| `MasterReplay.MtuReadBack` | cmd/dump/apply.go:207-234 | the MTU that is saved is the one apply sets |
| `SavedReplay.FinalType` | cmd/get/get_netlink.go:72-80 | after any run the type file of an interface is there exactly when an event typed it, and names the type the last one gave it |
| `SavedReplay.TypedExactly` | cmd/get/get_netlink.go:213-300 | an interface has a type exactly when an event made its directory |
| `SavedReplay.LastHouseDecides` | cmd/get/get_netlink.go:213-300 | the event that decides it is the last one that made the directory |
| `SavedReplay.VxlanRetypes` | cmd/get/get_netlink.go:272-279 | a VxLAN link makes a physical port of what it lies on, unless that is a bridge: the forwarding entries of a VxLAN link are then not read again, those of any other are |
| `SavedReplay.SavedTokened` | cmd/dump/apply.go:378-518 | after any run that is saved no reader of any interface misses a token |
| `SavedReplay.SavedIsReadAgain` | cmd/dump/apply.go:520-558 | apply of one interface runs, of the commands of each kind, those its reader rebuilds exactly when the final type has the reader and the interface is copied |
| `Entries.InScriptExactly` | cmd/get/get_netlink.go:213-415 | the flat script says something of a kind about an interface exactly when a call gave it such an entry |
| `HostLists.HostHasExactly` | cmd/get/get_netlink.go:538-574 | a whole save has an entry of a kind for an interface exactly when a listed link gives one |
| `HostLists.ParentsFirstExactly` | cmd/get/get_netlink.go:538-574 | every tagged link comes after one that makes its parent's directory exactly when they are listed so: bridges before bonds before the rest |
| `HostLists.LastListedDecides` | cmd/get/get_netlink.go:538-574 | the final type is what the last listed link on the interface gives it: its own type, or that of the device under a VxLAN link |
| `SavedHosts.EntriesReadAgainExactly` | cmd/dump/apply.go:520-558 | for every host, apply of one interface runs the flat script's lines about its addresses, neighbours or forwarding entries, in order, exactly when the host has none or its final type has the reader |
| `SavedHosts.SubInterfacesReadAgainExactly` | cmd/dump/apply.go:520-558 | for every run, the same of its sub-interfaces: the type has the reader, parents come first and no name has a bar, or there are none |
| `SavedHosts.HostSubInterfacesExactly` | cmd/dump/apply.go:520-558 | for every host, the same in terms of the listed links |
| `SavedHosts.RoutesReadAgainExactly` | cmd/dump/apply.go:350-376 | for every host, what is run for the routes of an interface is its routes in order, with replace for add, exactly when its directory was made and copied |
| `SavedHosts.SaveThenApply` | cmd/dump/apply.go:114-142 | after a save the flat script runs nothing; apply of one interface runs what it said where it is read again; the two agree exactly when the host has no such entry or none is read again |
| `FailingHosts.SubInterfaceFdbLost` | cmd/dump/apply.go:533-539 | a host with one sub-interface and one forwarding entry: the script says it and apply runs nothing of it |
| `FailingHosts.VxlanFdbLost` | cmd/get/get_netlink.go:272-279 | a host with a VxLAN link on a VxLAN link: the same of the lower one's entry |
| `FailingHosts.ChildBeforeParentLost` | cmd/get/get_netlink.go:143-151 | a host that lists a sub-interface before its parent: it is not rebuilt |
| `PortPairs.GetPortPairList` | cmd/create/create_loadbalancer.go:679-735 | the port map of the list, or a refusal |
| `PortPairs.ParsePrintPair` | cmd/create/create_loadbalancer.go:687-724 | a printed pair is read back: the service ports stand in front of the ':', the target range behind it |
| `PortPairs.PairExactly` | cmd/create/create_loadbalancer.go:687-724 | when a text with two sides is refused, when it is passed over, and which numbers it gives otherwise |
| `PortPairs.SkippedExactly` | cmd/create/create_loadbalancer.go:683-705 | a text is passed over exactly without two sides, or with good ports and more than two targets |
| `PortPairs.NotNegative` | cmd/create/create_loadbalancer.go:689-716 | no parsed number is negative, since '-' always separates |
| `PortPairs.RefusedExactly` | cmd/create/create_loadbalancer.go:679-735 | the list is refused exactly when one of its pairs is malformed |
| `PortPairs.LastPairWins` | cmd/create/create_loadbalancer.go:720-731 | a 16-bit port is mapped exactly when a well-formed pair names it, and to the whole target range of the last one |
| `PortPairs.LastNamingIsLast` | cmd/create/create_loadbalancer.go:720-731 | the last such pair: it names the port and no later one does |
| `PortPairs.TargetsConsecutive` | cmd/create/create_loadbalancer.go:724-730 | a target range is a non-empty run of consecutive 16-bit ports |
| `Endpoints.GetEndpointList` | cmd/create/create_loadbalancer.go:746-761 | the endpoints in order, or a refusal for the first bad text |
| `Endpoints.ParseEndpointRoles` | cmd/create/create_loadbalancer.go:765-781 | beside each endpoint the role of the word in its place, all normal when none is given, refused exactly on another length or an unknown word |
| `Endpoints.AlignNixlPorts` | cmd/create/create_loadbalancer.go:785-797 | beside each endpoint the NIXL port in its place, cut to 32 bits, by the same rule |
| `Endpoints.RoleWords` | cmd/create/create_loadbalancer.go:253-264 | which words are normal, prefill and decode |
| `Endpoints.EndpointsAt` | cmd/create/create_loadbalancer.go:746-761 | accepted exactly when every text is, each endpoint in the place of its text |
| `Endpoints.ParsePrintEndpoints` | cmd/create/create_loadbalancer.go:746-761 | printing endpoints as ip:weight and parsing gives them back in order, colons in addresses included |
| `Endpoints.BuildEndpoints` | cmd/create/create_loadbalancer.go:470-485 | the endpoints of a request, or the dsr refusal exactly when a target differs from the service port |
| `Endpoints.ProductAt` | cmd/create/create_loadbalancer.go:470-485 | entry i*m+j of m targets is endpoint i with its role and NIXL port, at target j |
| `LBOptions.ValidateLBAIOptions` | cmd/create/create_loadbalancer.go:873-910 | the verdict, and the flag a refusal is about, with the early exit |
| `LBOptions.ScanRoles` | cmd/create/create_loadbalancer.go:1185-1198 | accepted exactly when every role is known and both a prefill and a decode are there |
| `LBOptions.NothingRequested` | cmd/create/create_loadbalancer.go:842-859 | without an option that needs a full proxy the later rules hold by themselves |
| `LBOptions.EarlyExitLosesNothing` | cmd/create/create_loadbalancer.go:873-910 | the verdict and the flag are those of all the rules in order, for every option record |
| `LBOptions.NotRequestedExactly` | cmd/create/create_loadbalancer.go:842-859 | nothing is asked for exactly when every option is at its default and the selection is a plain one |
| `LBOptions.FrontAcceptedExactly` | cmd/create/create_loadbalancer.go:814-1061 | the front checks accept exactly what fits, field by field |
| `LBOptions.NumbersExactly` | cmd/create/create_loadbalancer.go:222-300 | the numbers of the selection, mode and security words |
| `LBOptions.AcceptedMeans` | cmd/create/create_loadbalancer.go:873-910 | an accepted record meets exactly the front rules, a full proxy where one is needed, the P/D and KV rules |
| `LBOptions.KvAcceptedExactly` | cmd/create/create_loadbalancer.go:1132-1245 | the P/D and KV checks accept exactly what fits the profile of the engine: hashes, ranks, ports for every rank, exact mode, roles |
| `LBOptions.DisaggHasBothRoles` | cmd/create/create_loadbalancer.go:1132-1226 | an accepted --pd-disagg names both roles, in full-proxy mode, with an engine that can split them |
| `LoadBalancer.ServicePorts` | cmd/create/create_loadbalancer.go:424-440 | in any walk order the two ports are the smaller key and the larger, 0 when there is one |
| `LoadBalancer.BuildRequest` | cmd/create/create_loadbalancer.go:415-499 | the request of one protocol, or the refusal |
| `LoadBalancer.PrepareEndpoints` | cmd/create/create_loadbalancer.go:397-410 | endpoints, roles and NIXL ports side by side, or a refusal |
| `LoadBalancer.CreateLB` | cmd/create/create_loadbalancer.go:370-524 | in any protocol order: only requests of the given options, one for each protocol; all of them on success; both roles in each under --pd-disagg; success exactly when everything can be built, if the gateway takes all |
| `LoadBalancer.OrderIndependent` | cmd/create/create_loadbalancer.go:411-524 | two successful runs post the same requests, whatever order the maps were walked in |
| `LoadBalancer.PostedPorts` | cmd/create/create_loadbalancer.go:424-453 | Port and PortMax of a posted request are the ports its flag text names, smaller first, and no other is named |
| `LoadBalancer.TargetsOfLastPair` | cmd/create/create_loadbalancer.go:470-470 | its target ports are those of the last pair that names its port |
| `LoadBalancer.PostedEndpoints` | cmd/create/create_loadbalancer.go:470-485 | its endpoint list is the full product of endpoints and target ports |
| `LoadBalancer.PostedFromFlags` | cmd/create/create_loadbalancer.go:470-485 | entry i*t+j is the i-th --endpoints text with the i-th --ep-role word and the i-th --nixl-port, at its j-th target port |
| `LoadBalancer.ProtoPairsExactly` | cmd/create/create_loadbalancer.go:377-392 | each protocol is requested with the pairs of its own flag, and only when there are any |
| `LoadBalancer.PostedService` | cmd/create/create_loadbalancer.go:442-499 | the address, operation, mode, security, secondary addresses and sources of a posted request are those given |
| `LoadBalancer.RoleIsPosted` | cmd/create/create_loadbalancer.go:470-485 | a role given to any endpoint is in every posted request |
| `LoadBalancer.DisaggPostsBothRoles` | cmd/create/create_loadbalancer.go:470-485 | a posted request of an accepted --pd-disagg has a prefill and a decode endpoint |
| `Firewall.FwRuleMod.GetFirewallRulePairList` | cmd/create/create_firewall.go:117-176 | the rule after the arguments, field by field; refused exactly at an argument that is too short or not a number |
| `Firewall.MakeDeleteQuery` | cmd/delete/delete_firewall.go:90-106 | the query made from the text: every key with its last value |
| `Firewall.TextQueryIsLast` | cmd/delete/delete_firewall.go:90-106 | it holds exactly the names given, each with its last value |
| `Firewall.MakeDeleteQueryOfRule` | cmd/delete/delete_file.go:242-274 | the query made from a rule holds exactly the fields that are set, under their own names |
| `Firewall.RuleIsLast` | cmd/create/create_firewall.go:117-176 | what the rule says of a key is what the last value given for it says |
| `Firewall.RuleFieldsExactly` | cmd/create/create_firewall.go:117-176 | every field of the created rule is what was last given under its own name, cut to its width |
| `Firewall.AddressArg` | cmd/create/create_firewall.go:117-176 | an address is all that stands behind the first ':' |
| `Firewall.CutArg` | cmd/create/create_firewall.go:117-176 | of any other argument only the text between its first two colons counts |
| `Firewall.ProperSaid` | cmd/delete/delete_file.go:242-274 | a value survives text to rule to text exactly when it is a non-empty text or a positive canonical number of the field's width |
| `Firewall.SameQueryExactly` | cmd/delete/delete_firewall.go:90-106 | the two queries are equal exactly when every key is known to create and every last value survives |
| `Firewall.OneArgDiffers` | cmd/delete/delete_file.go:242-274 | one accepted argument of an unknown key or with a value that does not survive makes the two queries differ |
| `Firewall.LeadingZeroDiffers` | cmd/create/create_firewall.go:117-176 | protocol:06 is accepted by both and names two rules |
| `Firewall.ProperArgsAgree` | cmd/create/create_firewall.go:117-176 | any list of proper arguments, repeats included, is accepted by both and names one rule |
| `RateLimits.ParseTenantModelLimits` | cmd/set/set_ratelimit.go:154-178 | the parsed pairs, or the reason of the first refusal |
| `RateLimits.OneExactly` | cmd/set/set_ratelimit.go:154-178 | what every value is, by the text before and behind its first '=' |
| `RateLimits.AcceptedIsGood` | cmd/set/set_ratelimit.go:154-178 | an accepted list has trimmed, bar-free, distinct models and quotas in range |
| `RateLimits.FormatTenantModelLimits` | cmd/get/get_ratelimit.go:116-123 | the cell is a sorted permutation of the printed pairs, joined by commas |
| `RateLimits.ParsePrintAll` | cmd/get/get_ratelimit.go:116-123 | parsing the printed pairs of a good list gives the list back |
| `RateLimits.AcceptedRoundTrip` | cmd/set/set_ratelimit.go:154-178 | so parse, print and parse is parse |
| `RateLimits.ParsePermuted` | cmd/set/set_ratelimit.go:154-178 | in any order the printed pairs parse to a permutation of the list |
| `RateLimits.SortedCellParses` | cmd/get/get_ratelimit.go:116-123 | splitting the cell at ',' and parsing succeeds exactly for a non-empty list of comma-free models, and gives a permutation of it |
| `RateLimits.OneSortedForm` | cmd/get/get_ratelimit.go:116-123 | the cell does not depend on the sort |
| `Sorting.SortByKey` | pkg/api/conntrack.go:49-53 | the in-place sort: ordered by the key, same elements |
| `Sorting.SortedOnce` | pkg/api/conntrack.go:49-53 | with distinct keys there is one sorted order |
| `SortKeys.CtInformationGet.Sort` | pkg/api/conntrack.go:49-53 | the listing is a permutation of what it was, ordered by key |
| `SortKeys.ConntrackKeyInjective` | pkg/api/conntrack.go:45-47 | equal keys mean equal fields when no host field of either holds a bar |
| `SortKeys.BarlessIdentifies` | pkg/api/conntrack.go:45-47 | a connection without a bar shares its key with no other connection whatever |
| `SortKeys.ConntrackKeyIdentifiesExactly` | pkg/api/conntrack.go:45-47 | a key is that of one connection only, exactly when its host fields hold no bar and its protocol no ports |
| `SortKeys.ConntrackKeyCollides` | pkg/api/conntrack.go:45-47 | with a bar in a host field, or ports in the protocol, there always is another connection of the same key |
| `SortKeys.ConntrackKeyOrder` | pkg/api/conntrack.go:45-47 | between the same hosts key order is numeric port order |
| `SortKeys.SortedByPorts` | pkg/api/conntrack.go:45-53 | in a sorted listing the ports of two hosts' connections go up as numbers |
| `SortKeys.FWInformationGet.Sort` | pkg/api/firewall.go:97-101 | a permutation ordered by key |
| `SortKeys.FwKeyInjective` | pkg/api/firewall.go:91-95 | a rule with bar-free prefixes shares its key with no other rule whatever |
| `SortKeys.FwKeyIdentifiesExactly` | pkg/api/firewall.go:91-95 | a key is that of one rule only, exactly when its prefixes hold no bar |
| `SortKeys.FwKeyOrder` | pkg/api/firewall.go:91-95 | between the same prefixes key order is numeric order of the four ports, then the protocol's text |
| `SortKeys.FwProtoOrder` | pkg/api/firewall.go:91-95 | two rules alike but for the protocol sort by its digits: the longer number cut to the length of the shorter |
| `SortKeys.FwProtoOrderNumericExactly` | pkg/api/firewall.go:91-95 | the smaller protocol sorts first exactly when it is no larger than as many front digits of the larger one |
| `SortKeys.FwProtoOrderIsTextual` | pkg/api/firewall.go:91-95 | with any rule, protocol 17 sorts before protocol 6 |
| `SortKeys.EPInformationGet.Sort` | pkg/api/endpoint.go:95-99 | a permutation ordered by key |
| `SortKeys.EndPointKeyInjective` | pkg/api/endpoint.go:91-93 | equal keys mean equal fields when no host or type of either holds a bar |
| `SortKeys.EndPointKeyIdentifiesExactly` | pkg/api/endpoint.go:91-93 | a key is that of one endpoint only, exactly when its type and name hold no bar and its host name no port |
| `SortKeys.EndPointKeyOrder` | pkg/api/endpoint.go:91-93 | on one host key order is numeric probe-port order |
| `BandTriples.ParseBandTriple` | pkg/api/bandtriple.go:39-53 | the triple of a text, or a refusal |
| `BandTriples.BandTripleVar.UnmarshalText` | pkg/api/bandtriple.go:66-73 | sets the receiver, and leaves it alone when the text does not parse |
| `BandTriples.ParsePrint` | pkg/api/bandtriple.go:56-58 | parsing the printed form gives every 32-bit triple back |
| `BandTriples.AcceptsExactly` | pkg/api/bandtriple.go:39-53 | accepted exactly when three digit strings, each at most 2^32-1 |
| `BandTriples.PrintNormalizes` | pkg/api/bandtriple.go:56-63 | printing is a normal form: it reparses to the same triple, and is the text itself exactly without leading zeros |
| `ApiKeyImport.ReadImportedAPIKey` | cmd/create/create_apikey.go:175-211 | which input is read, and when a key is imported or refused |
| `ApiKeyImport.AcceptedKey` | cmd/create/create_apikey.go:197-210 | where in the input the accepted key lies, its length and its bytes |
| `ApiKeyImport.KeyFileImported` | cmd/create/create_apikey.go:197-210 | a key with ASCII white space around it is imported as it is when all of it fits the bounded read and its length is allowed |
| `ApiKeyImport.LongestKeyFile` | cmd/create/create_apikey.go:53-56 | the longest key with a newline, or with carriage return and newline, is imported |
| `ApiKeyImport.WideSpaceExactly` | cmd/create/create_apikey.go:201-201 | the wide white space that is trimmed is that of Unicode, in UTF-8 |
| `ApiKeyImport.WholeWordExactly` | cmd/create/create_apikey.go:190-210 | an accepted key is the whole first word exactly when the word and the white space before it fit 514 bytes |
| `ApiKeyImport.NeverCutShort` | cmd/create/create_apikey.go:53-56 | with at most one byte of white space in front no accepted key is cut short |
| `ApiKeyImport.CutShort` | cmd/create/create_apikey.go:190-210 | with two bytes in front a longer word is accepted cut short |
| `UlclTable.PrintRows` | cmd/get/get_sessionulcl.go:86-111 | the rows of the sorted entries |
| `UlclTable.GroupRows` | cmd/get/get_sessionulcl.go:92-111 | the grouping loop, though it appends to the list it ranges over |
| `UlclTable.OneRowEach` | cmd/get/get_sessionulcl.go:92-111 | for non-empty idents: row i is entry i, labelled exactly when it is the first of its ident |
| `UlclTable.LabelledOnce` | cmd/get/get_sessionulcl.go:92-111 | each ident labels exactly one row |
| `UlclTable.RowsCounted` | cmd/get/get_sessionulcl.go:92-111 | how many rows a sorted list gives, entries without an ident doubling the unlabelled rows |
| `UlclTable.OneRowEachExactly` | cmd/get/get_sessionulcl.go:92-111 | the printed table has one row for each entry exactly when at most two have no ident |
| `Lifecycle.ListFailedDependencies` | pkg/api/configlifecycle.go:349-357 | the failed dependencies, in order |
| `Lifecycle.NoneFailed` | pkg/api/configlifecycle.go:349-357 | the list is empty exactly when no dependency failed |
| `Lifecycle.LifecycleReport.NoteLegacy` | cmd/lifecycle/lifecycle.go:107-112 | one note, exactly for the older contract |
| `Lifecycle.LifecycleReport.EnvelopeFor` | cmd/lifecycle/lifecycle.go:126-146 | success, code, message and failure triple follow the error, the warnings the notes, and the correlation id the maintenance state |
| `Lifecycle.Restore` | cmd/lifecycle/restore.go:41-49 | the report's contract and notes; a strict success is durable and has no note |
| `Lifecycle.Persist` | cmd/lifecycle/persist.go:31-67 | the same for persist |
| `Lifecycle.DoSnapshot` | cmd/lifecycle/snapshot.go:70-110 | success exactly for a 200 with a document that verifies, checksummed under --strict, and written when a file is named; nothing is written otherwise |
| `Lifecycle.Snapshot` | cmd/lifecycle/snapshot.go:46-68 | the report's contract and notes; a strict success is durable and has no note |
| `Lifecycle.RestoreSucceedsExactly` | cmd/lifecycle/restore.go:96-131 | no error exactly for a clean 2xx answer from the pipeline, durable under --strict |
| `Lifecycle.RestoreVerdictExactly` | pkg/api/configlifecycle.go:278-343 | the reason of a restore's verdict, from the fields of its report, the first that applies |
| `Lifecycle.RestoreFailsExactly` | cmd/lifecycle/restore.go:51-131 | why a restore fails, and which status the failure carries |
| `Lifecycle.LooksLikeExactly` | cmd/lifecycle/restore.go:137-143 | what is not from the pipeline: a body without any of its fields |
| `Lifecycle.FailedConcat` | pkg/api/configlifecycle.go:349-357 | failed dependencies are listed in order |
| `Lifecycle.FailedOne` | pkg/api/configlifecycle.go:349-357 | each failed one by its text, any other not |
| `Lifecycle.PersistSucceedsExactly` | pkg/api/configlifecycle.go:240-266 | a persist succeeds exactly for a 200 whose body decodes and says ok, and under --strict names schema version, generation, path and checksum |
| `Lifecycle.PersistFailsExactly` | cmd/lifecycle/persist.go:41-67 | the reason of a failed persist |
| `Lifecycle.PersistClaimsExactly` | pkg/api/configlifecycle.go:177-185 | when a persist claims the durable contract |
| `Lifecycle.ExitStatusExactly` | pkg/cli/exitcode/exitcode.go:170-213 | which reasons each exit status stands for |
| `ExitCodes.LabelExactly` | pkg/cli/exitcode/exitcode.go:68-90 | the envelope's code and the exit status are one to one |
| `Lifecycle.AskedModeDecidesOnlyWhenAbsent` | cmd/lifecycle/restore.go:115-120 | a body that names its mode is judged by it, whatever was asked, and one that names none as if it named the asked one |
| `Lifecycle.StrictOnlyAdds` | pkg/api/configlifecycle.go:240-343 | a verdict that fails without --strict fails identically with it; what fails only with it is the contract |
| `Lifecycle.StrictOutcomeOnlyAdds` | cmd/lifecycle/restore.go:96-131 | a restore that fails without --strict fails with it, and differently exactly for a clean non-2xx body without a contract |
| `Lifecycle.StrictRenamesRefusal` | cmd/lifecycle/restore.go:122-126 | such a body |
| `Lifecycle.StrictPersistOnlyAdds` | cmd/lifecycle/persist.go:41-67 | a persist that fails without --strict fails identically with it |
| `Lifecycle.RestoreExitsPartialExactly` | pkg/cli/exitcode/exitcode.go:172-210 | a restore exits 8 exactly after a failed rollback or a commit that was not persisted |
| `Appliance.FirstLine` | cmd/appliance/appliance.go:349-356 | the text before the first newline |
| `Appliance.Ran` | pkg/backend/backend.go:384-411 | killed and exit code -1 go together, and the correlation id is not empty |
| `Appliance.WriteEnvelope` | cmd/appliance/appliance.go:175-208 | every field of the envelope; its code and the exit status agree; a recovery id stands exactly in Partial ones |
| `Appliance.Dispatch` | cmd/appliance/appliance.go:143-170 | success only for a process that exited 0; backend bytes only when they agree with it; envelope and exit status never disagree; every Partial envelope of a completed process has a non-empty recovery id |
| `Appliance.Resolved` | cmd/appliance/appliance.go:215-267 | when the verdict is success, and when a document is passed on |
| `Appliance.PartialExactly` | cmd/appliance/appliance.go:296-335 | a killed process is Partial when it could change something and Unavailable when not, in both modes; one that was not killed is Partial exactly when it said so |
| `Appliance.StatusKeptExactly` | cmd/appliance/appliance.go:215-267 | a status of the taxonomy is kept as the exit code, exactly unless a JSON document disagrees with it; any other is Failed |
| `Appliance.ModesAgreeExactly` | cmd/appliance/appliance.go:215-267 | JSON and human mode end with the same code exactly when the document agrees with the process, or is not consulted, or the code is 6 anyway |
| `Appliance.KilledSays` | cmd/appliance/appliance.go:312-334 | what is said of a killed process, and of one stopped by the timeout |
| `Appliance.MismatchExactly` | cmd/appliance/appliance.go:222-255 | why a document is refused, the first reason that applies |
| `Appliance.DocumentKept` | cmd/appliance/appliance.go:256-267 | a failure that an agreeing document reports keeps its exit, origin, code and message |
| `Appliance.BelievedError` | pkg/backend/payload.go:337-383 | an operation error that is believed: its code names its exit, only an unavailable backend invites a retry, a partial change names its handle |
| `Appliance.ModesDiffer` | cmd/appliance/appliance.go:215-267 | exit 8 beside a document that does not fit: 6 in JSON mode and 8 in human mode |
| `Appliance.MessageNamesRecoveryIdExactly` | cmd/appliance/appliance.go:322-334 | the id in the message of a killed change is the envelope's exactly when the output named no other |
| `Text.SplitJoin` | cmd/dump/apply.go:393-398 | strings.Split undoes joining when no part holds the separator |
| `Text.JoinSplit` | cmd/dump/apply.go:393-398 | joining undoes strings.Split, for every text |
| `Text.ScanAppend` | cmd/dump/apply.go:236-263 | a line written behind a text is the last line a Scanner finds |
| `Text.LessPad5` | pkg/api/conntrack.go:45-47 | five-digit zero padding makes text order of 16-bit numbers numeric order, whatever follows |
| `Text.TrimSpaceCuts` | cmd/set/set_ratelimit.go:154-178 | strings.TrimSpace takes away the white space at both ends and nothing else |
| `Text.AtoiItoa` | cmd/create/create_loadbalancer.go:692-692 | strconv.Atoi undoes strconv.Itoa on 64 bits |
| `Text.Int32Of` | cmd/create/create_loadbalancer.go:785-797 | a number cut to 32 bits keeps its low bits, in two's complement |
| `Text.DecOrder` | pkg/api/firewall.go:91-95 | the text order of two numbers without padding, in terms of the numbers |
| `Text.AtoiDec` | cmd/delete/delete_file.go:242-274 | strconv.Atoi undoes strconv.Itoa |

## Left out

- All I/O: HTTP calls, flag parsing by cobra, table rendering, running commands with bash, netlink and the file system itself.
- JSON and YAML decoding, checksum verification and atomic file writing: oracles, as said above.
- Whether the rebuilt commands for VxLAN links, bridges, bonds, MTU and masters do what the flat script does: the two forms differ by construction there (`cmd/dump/apply.go:453-454`). `IntfApply` says what is run.
- The same of routes: the flat script says `add` where the reader says `replace`.
- DumpTheorems.SaveReplays: covers addresses, neighbours and forwarding entries, as the two forms are written; a sub-interface record can be lost, and SubInterfaces.SubInterfacesReplayExactly says exactly when.
- The backup of an older configuration directory.
- IntfDump.Dumper.Nlpdump: takes the kernel's lists once, although the program asks for the links three times.
- IntfDump.Dumper.AddNeigh: requires six bytes where it slices a hardware address, counting those that stand behind it in the message, since the program stops on fewer.
- IntfReplay.Replay: requires three tokens in a sub-interface record, since the program stops on fewer.
- IntfApply.ApplyIpConfigPerInterface: requires the tokens its readers take, for the same reason; SavedReplay.SavedTokened shows that a save leaves them.
- PortPairs.GetPortPairList: a target range that ends at 2^63-1 never ends in the program; the model has no such overflow.
- `applyAIServiceOptions` and the pass-through options of `create lb`: field copies. Feature checks are one boolean. The check that EXTERNAL-IP is an address is not part of this model.
- LBOptions.ValidateLBAIOptions: a refusal carries the flag its message is about, not the message; elsewhere too message texts are modelled only where they carry an id.
- Sorting.SortByKey: one in-place sort stands for sort.Slice and sort.Strings; Sorting.SortedOnce says where the choice cannot be seen.
- Text is a sequence of characters; invalid UTF-8 is modelled only in ApiKeyImport, which works on bytes. Lower-casing is exact only where it is compared with ASCII words.
- Firewall.FwRuleMod.GetFirewallRulePairList: options beside the rule text (actions, marks, SNAT arguments) are not part of this model.
- Appliance.Dispatch: failed writes to standard output and error; the schemas of success documents are one oracle boolean.
- Lifecycle.DoSnapshot: requires a body to verify with every answer, since bytes that do not decode are one of the verification's failures.
- Gateway-side behaviour: merging on replace, idempotent maintenance, audit export.
- `apply` for load balancers, sessions, firewalls and BFD, which post decoded documents; enum-to-number tables; login, tokens and secret files.
