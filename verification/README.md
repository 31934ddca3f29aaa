# wgctrl: configurations, dumps and their texts

A Dafny model of how this repository moves WireGuard configurations around: a device is a
state (private key, port, mark, peers, and a table that gives each allowed network to the
one peer owning it), a configuration is a program over that state, and everything between
the two is proved to keep its meaning.

* `WgTypes`, `DeviceModel`, `DeviceLaws`: the values, and what a configuration does to a
  device.
* `Batches`, `BatchesMeaning`, `BatchesLimits`, `BatchesExact`: splitting a large
  configuration into netlink messages within the limits of the kernel refines applying it at
  once, and exactly when it is faithful.
* `Conf`, `NamesRuns`, `SyncConvergence`, `UpdateOnly`, `SpareNets`, `SyncExact`: Apply and
  Sync with the table of peer names, invariants over all runs, and when syncing and replacing
  agree.
* `Reassembly`, `ReassemblyInverts`: rebuilding a device from a fragmented dump.
* `Layout`, `Records`, `WindowsRecords`, `Windows`, `WindowsParse`, `OpenBSD`: the nested
  binary buffers of two kernels; one set of offset lemmas for any record sizes.
* `WindowsDriver`, `WindowsDump`, `OpenBSDDump`: the other ends of these buffers, by offsets
  and bits given as numbers: a driver that obeys the one it is handed, and the dumps that a
  driver and a kernel write.
* `Text`, `Numbers`, `Base64`, `Addresses`, `Endpoints`, `OutsideExists`: the text forms of
  values.
* `ConfigLines`, `ConfigMeaning`, `ConfigParse`, `ConfigLaws`, `ConfigText`: the wg(8)
  file, its parser against a section-by-section meaning, and its printer.
* `ConfigSpells`, `ConfigSettings`, `ConfigValues`: how values are spelled, files as somebody
  may write them, which the parser interprets, and exactly which texts are values.
* `Showconf`, `ShowconfParses`, `ShowconfMeans`, `ShowconfRestores`,
  `ShowconfWorld`, `ShowconfSync`: `showconf` then `setconf` or `syncconf`, end to end.
* `Store`: the file of peer names.
* `UserText`, `UserParse`, `UserRoundTrip`, `UserExact`: the userspace text protocol.
* `UserValues`: exactly which texts are its values, and which of its lines matter.
* `UserDaemon`, `UserDump`: its other end, a daemon that serves such a text line by line, and
  one that describes its device.
* `Quick`, `QuickShell`, `QuickRuns`, `QuickRoutes`, `QuickUpDown`: `wg-quick` up and down as
  commands that may fail.
* `Nodes`, `NodeText`, `NodeRoundTrip`, `NodeRows`: merging the nodes of a shared gist, and
  their text.

Methods carry the loops of the source and are proved against functions that say what they
compute; lemmas then state what those functions are for, in terms that do not go through
them: an interpreter of typed lines for each parser of text, the receiving end for each
writer and the sending end for each parser of records, and limits, offsets and flags as
numbers. Where the source does not do
what one would expect of it, the condition under which it does is proved as an
equivalence: splitting with repeated keys (`FaithfulExactly`), syncing peers whose entries
leave settings out (`ConvergesExactly`), dumps whose first message repeats a key
(`ParseDeviceInverts`), IPv4-mapped networks in a file (`RestoresExactly`) or in the Windows
driver's buffer (`NetworksComeBackExactly`), removals in the userspace protocol
(`ConfigRoundTrip`), names after a call that fails (`FailedCallExactly`), and a rule that
`wg-quick up` leaves behind (`LeaksExactly`). Each comes with a lemma or a method at an
input where the source falls short.

The plan for `syncconf` in docs/superpowers/plans says that it clears settings that the
file omits. The code does not, and the model follows the code (`SettingsDiffer`).

Outside the model, and taken as parameters: IPv6 text, JSON strings, the port database,
name lookups (each name fails temporarily some number of times and then settles), the
environment variable with the retry count, the derivation of public keys, and which
commands of `wg-quick` fail. `Addresses.Lawful` states all that is assumed of the first
three: that reading undoes writing, and which characters the texts are made of;
`OutsideExists.LawfulExists` gives text forms that keep these laws.

`dafny verify dfyconfig.toml` checks the whole project.

## Model

| member | source | states |
|---|---|---|
| Batches.ShouldBatch | internal/wglinux/configure_linux.go:68-79 | the counting loop with its early exits decides exactly whether there are more than 32 peers or more than 256 allowed-IP entries |
| Batches.BuildBatches | internal/wglinux/configure_linux.go:82-184 | the message loop returns exactly the messages of `BatchesOf`, one chunk each, settings only in the first chunk of a key, ReplacePeers only in the first message |
| Batches.NonEmpty | internal/wglinux/configure_linux.go:82-97 | a configuration that has to be split has a peer, so there is a first message to keep ReplacePeers |
| BatchesLimits.MessagesSmall | internal/wglinux/configure_linux.go:52-79 | whatever the configuration, every message has at most 32 peers and at most 256 networks and operations in all |
| BatchesLimits.SentWholeExactly | internal/wglinux/configure_linux.go:82-86 | a configuration is sent as the single message it is exactly when it is within both limits itself |
| BatchesLimits.MessagesCarry | internal/wglinux/configure_linux.go:87-181 | each message of a split one has the key, port and mark of the configuration and one of its peers; only the first may replace all peers |
| BatchesMeaning.Chunking | internal/wglinux/configure_linux.go:98-173 | each peer becomes max(1, ceil(n/256)) chunks, all full but the last, whose entries are AllowedIPs followed by AllowedIPOperations in order |
| BatchesMeaning.BatchesRefine | internal/wglinux/configure_linux.go:82-184 | for every device, applying the messages in order equals applying once the configuration in which only the first entry of each key keeps its settings |
| BatchesExact.BatchesFaithful | internal/wglinux/configure_linux.go:154-167 | the messages mean the configuration itself whenever no later entry of a key carries settings |
| BatchesExact.RepeatedKeyUnfaithful | internal/wglinux/configure_linux.go:156-167 | for every key list with a repetition a configuration and a device where splitting changes the outcome |
| BatchesExact.FaithfulExactly | internal/wglinux/configure_linux.go:82-184 | splitting keeps the meaning of all configurations over a key list exactly when its keys are distinct |
| DeviceModel.ApplyOpsOwners | wgtypes/types.go:252-274 | allowed-IP operations leave every network they do not name as it was, and give the others to no one but their peer |
| DeviceModel.ApplyConfigWellFormed | wgtypes/types.go:229-317 | no configuration leaves a network owned by a key that is not a peer |
| DeviceModel.ApplyPeersConcat | wgtypes/types.go:247-252 | peer entries are applied in order: a list in two parts is the two parts one after the other |
| DeviceLaws.LastOperation | wgtypes/types.go:252-274 | the last operation that names a network decides whether the peer has it |
| DeviceLaws.OthersStay | wgtypes/types.go:276-317 | an entry changes no setting of another peer, no device field, and no network of others that it does not name |
| DeviceLaws.FieldsAreSet | wgtypes/types.go:276-303 | an entry that acts sets the fields it has, in whole seconds for the interval, and keeps the others |
| DeviceLaws.NetworksLeft | wgtypes/types.go:284-313 | of the networks an entry does not name, its peer keeps those it had, unless it is removed or they are replaced; a removal takes nothing from other peers, and an update-only entry does nothing where its peer is not |
| DeviceLaws.HeaderIsSet | wgtypes/types.go:229-247 | nil device fields stay, others are set, and peers are kept or all replaced |
| WgTypes.MaskedIdempotent | internal/wguser/parse.go:252-265 | zeroing host bits is idempotent: a network named with or without them is one network |
| Conf.SyncPeerConfigs | internal/wgconf/conf.go:94-106 | the desired entries, then one removal for each current peer that is not desired, in device order |
| Conf.UpdateNames | internal/wgconf/conf.go:40-61 | the callback over the stored names computes `NamesAfter`, entry by entry |
| Conf.Stripped | internal/wgconf/conf.go:22-26 | the copy sent to the device is the configuration without names |
| Conf.Host.ConfigureDevice | internal/wgconf/conf.go:27-29 | on success the device is configured at once or message by message; on failure only the messages sent so far have taken effect |
| Conf.Host.Apply | internal/wgconf/conf.go:21-65 | device and names after each way a call can fail or succeed; names change only when everything succeeded |
| Conf.Host.Sync | internal/wgconf/conf.go:70-77 | applies the desired entries followed by removals computed from the device as it was; nothing changes when it cannot be read |
| NamesRuns.LastEntryNames | internal/wgconf/conf.go:46-60 | the name of a peer is what the last entry deciding it says |
| NamesRuns.OtherNamesKept | internal/wgconf/conf.go:39-60 | after a successful call, sent whole or split, a name that no entry decides is what it was, or none when all peers were replaced |
| NamesRuns.DecidedNameGiven | internal/wgconf/conf.go:39-60 | after such a call a name that some entry decides is what the last of them gives |
| NamesRuns.FailureKeepsNames | internal/wgconf/conf.go:27-65 | a failed call keeps all names; the device is configured unless configuring failed, and untouched when that failed at the first message |
| NamesRuns.NamesStayPeers | internal/wgconf/conf.go:21-106 | over every run of successful Apply and Sync calls, sent whole or split, no name becomes stale |
| NamesRuns.NamedKeysArePeers | internal/wgmeta/store.go:51-71 | started with names of peers only, every run keeps every named key a peer of the device |
| NamesRuns.FailedCallExactly | internal/wgconf/conf.go:30-63 | a call that fails once the device is configured adds no stale name exactly when each named peer of the device is made by an entry that no removal follows, or is neither removed nor replaced |
| NamesRuns.InterruptedCallExactly | internal/wgconf/conf.go:27-29 | the same for a call that fails while configuring, about the entries of the messages that reached the device |
| NamesRuns.FailedStoreLeavesName | internal/wgconf/conf.go:61-63 | one such failure: a store that fails after a removal leaves the removed peer's name |
| SyncConvergence.SyncMeaning | internal/wgconf/conf.go:70-106 | Sync is: apply the desired entries to the device as it is, then drop the peers that are not desired |
| SyncExact.PeersConvergeExactly | internal/wgconf/conf.go:70-106 | Sync and replacing all peers reach the same peer keys from every device exactly when each desired key has an entry that removes it or is not update-only |
| SyncExact.TableConvergesExactly | internal/wgconf/conf.go:70-106 | when each update-only entry follows one that makes or removes its peer, they reach the same allowed-IP table from every device exactly when some entry of each desired key that takes effect removes it or replaces its networks |
| SyncExact.ConvergesExactly | internal/wgconf/conf.go:70-106 | for the same lists, they reach the same device from every device exactly when the entries of each desired key that take effect settle networks, preshared key, endpoint and keepalive |
| SyncExact.SettingsDiffer | internal/wgconf/conf.go:94-106 | a setting that the entries taking effect leave out survives on a kept peer: the device where the two strategies differ |
| UpdateOnly.EffectiveSame | wgtypes/types.go:290-292 | an update-only entry that follows one making or removing its peer is, on every device, an ordinary entry or none |
| UpdateOnly.PlainIsEffective | wgtypes/types.go:290-292 | where no entry is update-only, all entries take effect as they are |
| UpdateOnly.PlainIsDetermined | wgtypes/types.go:289-292 | where no entry is update-only, the lists are of the kind that TableConvergesExactly and ConvergesExactly speak of |
| SyncExact.BatchedSyncConverges | internal/wgconf/conf.go:70-106 | convergence of peers and table still holds when the configuration is split into messages, for distinct keys that all replace their networks |
| Reassembly.MergeDevices | internal/wglinux/parse_linux.go:300-310 | merging one message appends networks to known peers and new peers at the end, and the index map again gives each key its position |
| Reassembly.ParseDevice | internal/wglinux/parse_linux.go:21-50 | the first message is taken as it is and the others are merged into it in order; the error of the first message that does not parse, if there is one, and the empty device for no messages |
| ReassemblyInverts.MergeMeaning | internal/wglinux/parse_linux.go:300-310 | merging pieces gives each peer once, in order of first appearance, with the networks of all its pieces in order |
| ReassemblyInverts.ParseDeviceInverts | internal/wglinux/parse_linux.go:21-50 | however a device is cut into messages it is rebuilt, exactly when the first message does not itself repeat a key |
| ReassemblyInverts.RepeatInFirstStays | internal/wglinux/parse_linux.go:29-40 | a first message that continues a peer within itself is returned with two peers of one key |
| Layout.BufferLength | internal/wgwindows/internal/ioctl/configuration_windows.go:73-87 | for any three record sizes, the walk by counts ends at the length of the buffer |
| Layout.PeerRecordAt | internal/wgwindows/internal/ioctl/configuration_windows.go:73-79 | the peer record at the offset given by the counts before it lies in the buffer and is the one laid out there |
| Layout.NetRecordAt | internal/wgwindows/internal/ioctl/configuration_windows.go:81-87 | so does every allowed-IP record |
| Layout.RecordsInOrder | internal/wgopenbsd/client_openbsd.go:197-222 | records follow each other without overlap, and the last one of a peer ends where the next peer starts |
| WindowsRecords.PeerRoundTrip | internal/wgwindows/internal/ioctl/configuration_windows.go:40-53 | every field of a peer record is read back from the offset it was written at |
| WindowsRecords.SockaddrRoundTrip | internal/wgwindows/internal/ioctl/winipcfg_windows.go:38-87 | SetIP, then IP and Port, gives back the port, and the address with an IPv4-mapped one as IPv4 |
| Windows.BuildConfiguration | internal/wgwindows/client_windows.go:253-313 | the builder's buffer is the interface record and the group of each entry in order, and its length is the preallocated size; To4 decides the family of networks and endpoints |
| Windows.BuiltLength | internal/wgwindows/client_windows.go:254-262 | the size computed before building is the length of what is built |
| WindowsParse.ParseConfiguration | internal/wgwindows/client_windows.go:170-239 | the cursor walk over any buffer with the right counts reads only records of it and returns their values in order, a network without mask where the length does not fit the family |
| WindowsParse.CursorAt | internal/wgwindows/internal/ioctl/configuration_windows.go:73-87 | FirstPeer and NextPeer steps by the counts visit exactly the offsets of the peer records |
| WindowsParse.BuiltBufferParses | internal/wgwindows/client_windows.go:170-333 | a built buffer has the right counts and parses, peer by peer, to key, preshared key, endpoint, whole keepalive seconds, and networks followed by those of the operations, IPv4-mapped ones as IPv4 with the length they had |
| WindowsParse.NetworksComeBackExactly | internal/wgwindows/client_windows.go:316-333 | the networks of all entries come back as configured exactly when none of them is an IPv4-mapped one |
| WindowsParse.MappedNetLosesMask | internal/wgwindows/client_windows.go:316-333 | ::ffff:10.0.0.0/104 comes back as 10.0.0.0 without a mask |
| WindowsParse.BuildThenParse | internal/wgwindows/client_windows.go:170-333 | builder and parser run one after the other return what `BuiltBufferParses` says, with the networks intact exactly when none is an IPv4-mapped one |
| WindowsDriver.DriverObeys | internal/wgwindows/client_windows.go:253-333 | a driver that follows the counts and flag bits in the buffer, by offset and number, does to any device what the configuration means, but for the mark and zones; for configurations without IPv4-mapped networks |
| WindowsDriver.DriverObeysExactly | internal/wgwindows/client_windows.go:253-333 | without mark, zones and IPv4-mapped addresses it does exactly what the configuration means |
| WindowsDump.DumpTold | internal/wgwindows/internal/ioctl/configuration_windows.go:25-71 | what the driver writes, field by field, consists of valid records with the values it holds, flags and times included |
| WindowsDump.DumpThenParse | internal/wgwindows/client_windows.go:170-239 | parsing that dump gives the device of the driver: counters, handshake times counted from 1601, and only announced fields |
| OpenBSD.ParseDevice | internal/wgopenbsd/client_openbsd.go:162-226 | the pointer walk over a dump whose counts match reads only its records and returns header, peers and networks in order, with the early exit for no peers; it panics where `PeersOfGroups` has no value |
| OpenBSD.PeersExactly | internal/wgopenbsd/client_openbsd.go:293-310 | a dump is read exactly when the family of every allowed IP is known, and then each peer has the values of its own records, a network without mask where the length does not fit |
| OpenBSD.DumpEnds | internal/wgopenbsd/client_openbsd.go:197-222 | every record read lies behind its peer record and inside the dump |
| OpenBSDDump.DumpTold | internal/wgopenbsd/internal/wgh/defs_openbsd_amd64.go:31-65 | every dump the kernel writes, field by field as its structures lie in memory, is read, with the values the kernel holds |
| OpenBSDDump.DumpThenParse | internal/wgopenbsd/client_openbsd.go:162-343 | parsing that dump gives the device of the kernel: keys, counters, times, and only announced fields |
| Base64.DecodeEncode | wgtypes/types.go:134-165 | base64 decoding undoes encoding for any number of bytes (section 4 of RFC 4648) |
| Base64.CanonicalExactly | internal/wgconfig/parse.go:300-309 | parseKey yields k exactly when the text is k.String(), the canonical encoding (section 3.5 of RFC 4648) |
| Numbers.ParseFormat | internal/wgconfig/parse.go:315-343 | a printed decimal or hexadecimal number is read back, or rejected exactly when it exceeds the limit |
| Numbers.ParseExactly | internal/wgconfig/parse.go:315-343 | a number is read from exactly its own texts: its digits in either case behind any number of zeros, within the limit |
| Numbers.AtoiReads | internal/wgquick/config.go:101-106 | a signed number is read back exactly when it fits 64 bits |
| Addresses.IP4RoundTrip | internal/wgconfig/encode.go:128-134 | dotted-decimal text is read back to the four bytes |
| Addresses.ReadIP4Exactly | internal/wgconfig/parse.go:225-231 | a text is read as an IPv4 address exactly when it is the dotted-decimal text of it |
| Addresses.CidrRoundTrip | internal/wgconfig/parse.go:368-382 | a printed network is read back, an IPv4-mapped one as the IPv4 network its text names |
| Endpoints.ResolveEndpoint | internal/wgconfig/parse.go:209-251 | returns what the value denotes; no lookup for literals, otherwise one more lookup than pauses and a pause for each temporary failure it may retry |
| Endpoints.LookUp | internal/wgconfig/parse.go:232-250 | the retry loop ends, and the pauses it made are the back-off sequence of the length it should have |
| Endpoints.PausesBounded | internal/wgconfig/parse.go:232-279 | with a finite retry count there are at most that many pauses, starting at 1 s, never shrinking, never above 20 s |
| Endpoints.PausesAre | internal/wgconfig/parse.go:232-279 | the pauses in nanoseconds: 1 s, then a fifth more each time, and 20 s from the eighteenth on |
| Endpoints.RetriesRead | internal/wgconfig/parse.go:281-298 | 15 retries by default, no limit for infinity, and a number of 31 bits with or without a plus sign |
| Endpoints.NameResolves | internal/wgconfig/parse.go:232-246 | a name with a port is resolved to its first address when its temporary failures do not exceed the retries, and to nothing otherwise |
| Endpoints.EndpointRoundTrip | internal/wgconfig/encode.go:128-134 | a printed endpoint is read back with port and zone, without any lookup |
| ConfigLines.ParseAllowedIPs | internal/wgconfig/parse.go:345-387 | the entry loop returns all operations or fails, and reports whether some entry is incremental |
| ConfigParse.Parse | internal/wgconfig/parse.go:21-161 | the line loop returns what the sections mean, or the number of the first line that may not stand where it does, or the first peer without a key |
| ConfigParse.PeerOfField | internal/wgconfig/parse.go:107-145 | one more field line of a section changes that field of the peer and nothing else; AllowedIPs lines add up and the last decides replacing |
| ConfigParse.TakeField | internal/wgconfig/parse.go:79-148 | a field is accepted exactly in a section that knows it and with a value in range |
| ConfigLaws.AcceptedExactly | internal/wgconfig/parse.go:21-161 | a file is accepted exactly when every line fits the scanner, may stand where it does, and every peer section has a public key |
| ConfigLaws.PeersSound | internal/wgconfig/parse.go:153-160 | every peer of an accepted file has the canonical key of its section and all its numbers in range |
| ConfigSettings.ParsedIsInterpreted | internal/wgconfig/parse.go:21-160 | for every file written in sections and settings of any order, with names in any case, comments, signed networks and lines that do not belong there, parsing is running an interpreter on the values: the same configuration, or the same error at the same line or peer |
| ConfigValues.LineExactly | internal/wgconfig/parse.go:56-82 | from its visible text, which line is blank, a section header or a setting; all others are errors |
| ConfigValues.NumbersExactly | internal/wgconfig/parse.go:315-343 | ports, intervals and marks are read from exactly their decimal digits behind any zeros, within their range, marks from 0x and hexadecimal digits as well, and intervals and marks from off in any case |
| ConfigValues.AllowedIPsExactly | internal/wgconfig/parse.go:345-387 | a list is read exactly when it is empty or each entry between its commas is a sign or none and an address with a mask length, or a lone address; it is incremental exactly when some entry has a sign |
| ConfigValues.EndpointExactly | internal/wgconfig/parse.go:209-262 | an endpoint is read exactly when it parts into host and port around the last colon, the port is known, and the host is an address, with a zone or without, or else a name that settles in time; which endpoint it is |
| ConfigText.Encode | internal/wgconfig/encode.go:47-126 | writes the lines of the device, or stops in the section of the first peer whose name may not be written |
| ConfigSpells.SettingSpells | internal/wgconfig/parse.go:163-207 | a written setting is classified as the field and value it stands for |
| ConfigSpells.NameSpells | internal/wgconfig/parse.go:163-174 | a written name comment is recognised with its JSON text |
| ConfigSpells.AllowedIPsRead | internal/wgconfig/encode.go:107-115 | the joined networks of a peer are read as setting exactly those networks, in order |
| ConfigSpells.OperationsAreRead | internal/wgconfig/parse.go:345-387 | any list of set, added and removed networks and lone addresses, written without sign, with plus and with minus, is read as those operations in order, and is incremental exactly when some entry has a sign |
| Showconf.DeviceLinesSay | internal/wgconfig/encode.go:47-126 | each line of a written device is classified as the header, field or name it was written for |
| ShowconfParses.DeviceReads | internal/wgconfig/parse.go:21-161 | every line of a written device is accepted where it stands, and falls into the section of its peer |
| ShowconfMeans.BlockMeans | internal/wgconfig/encode.go:82-126 | the section written for a peer means the entry that restores it |
| ShowconfMeans.BlockValues | internal/wgconfig/encode.go:82-126 | a section has a line for a field exactly when the peer has something to write in it |
| ShowconfMeans.HeaderValues | internal/wgconfig/encode.go:47-66 | so has the section of the interface |
| ShowconfRestores.FileParses | internal/wgconfig/parse.go:21-161 | a written device parses to the configuration that restores it, or to a too-long error exactly when a line does not fit the scanner |
| ShowconfRestores.ShowThenParse | internal/wgconfig/encode.go:47-126 | encoder and parser run one after the other, with the outcome for every device the encoder accepts |
| ShowconfRestores.RestoresExactly | internal/wgconf/conf.go:21-65 | applied to any prior state, the parsed file gives back the reported device, exactly when no network or endpoint is an IPv4-mapped IPv6 one |
| ShowconfRestores.MappedEndpointChanges | internal/wgconfig/encode.go:128-134 | a peer at ::ffff:10.0.0.1 is restored at 10.0.0.1 |
| ShowconfWorld.AttachNames | internal/wgconf/conf.go:81-92 | each peer gets its stored name unless that is empty |
| ShowconfWorld.ConfiguredAsOne | internal/wgconf/conf.go:22-29 | with distinct keys, stripping names and splitting into messages change nothing about the device |
| ShowconfWorld.WorldRestored | internal/wgconf/conf.go:21-92 | showing a device with its names and setting the result restores device and names from any other state, split or not |
| ShowconfWorld.FragmentsRestored | internal/wglinux/parse_linux.go:21-50 | the same from kernel messages, however they cut the dump |
| ShowconfWorld.ShowThenSet | internal/wgconf/conf.go:21-92 | the whole path in one method: it succeeds exactly when the file can be written and read, and then the host is the one that was shown |
| ShowconfSync.SyncOfShownIsIdentity | internal/wgconf/conf.go:70-106 | syncing a device with its own shown file changes neither the device nor the names |
| Store.EncodeNames | internal/wgmeta/store.go:134-143 | the stored map holds exactly the non-empty names under the texts of their keys |
| Store.DecodeNames | internal/wgmeta/store.go:145-155 | succeeds exactly when every text is a key, and then holds each key with a name stored for it |
| Store.NamesRoundTrip | internal/wgmeta/store.go:134-155 | encoding and decoding names gives them back without the empty ones |
| Store.NameFile.Update | internal/wgmeta/store.go:51-71 | one atomic update: the file holds exactly the updated names, or is unchanged when it cannot be read or written |
| UserText.WriteConfig | internal/wguser/configure.go:53-109 | writes the key/value lines of the configuration in order |
| UserParse.DeviceParser.Parse | internal/wguser/parse.go:99-140 | one line changes the parser as `Step` says, keeps the peer count equal to the number of peers and the mode in step with it |
| UserParse.ParseDevice | internal/wguser/parse.go:48-72 | reads lines up to the empty one, and stops at the first line that is too long or no key/value pair |
| UserParse.ErrorIsFirst | internal/wguser/parse.go:75-265 | for every sequence of lines there is one peer per public_key line, and the error kept is that of the first faulty line |
| UserParse.ErrorLatched | internal/wguser/parse.go:86-96 | once a line has failed, no later line changes what Device returns |
| UserRoundTrip.HandshakeRead | internal/wguser/parse.go:157-170 | a handshake time is set once both its lines are read and both numbers are positive |
| UserRoundTrip.StepStatistics | internal/wguser/parse.go:171-184 | the traffic and protocol lines set their own field of the current peer |
| UserRoundTrip.ErrnoDecides | internal/wguser/parse.go:101-108 | the error number behind a readable dump decides: zero changes nothing, any other is returned as the error |
| UserParse.PreferredIs | internal/wguser/parse.go:238-250 | of the addresses of a name the first IPv4 one is taken, or the first if there is none |
| UserParse.NameIsAddressed | internal/wguser/parse.go:238-250 | a name with a port is looked up once for that address |
| UserValues.HexExactly | internal/wguser/parse.go:186-205 | a key is read from exactly the hexadecimal digits of its bytes, in either case |
| UserValues.IntegerExactly | internal/wguser/parse.go:207-220 | a number is read exactly from a sign or none and digits, within 64 bits |
| UserValues.UDPAddrExactly | internal/wguser/parse.go:237-250 | an endpoint is read exactly from a host and a port, the host an address, IPv6 ones with a zone or without, or a name found in one lookup |
| UserValues.KeyValueExactly | internal/wguser/parse.go:58-63 | a line is a pair exactly when it has a key and a value around its only equals sign |
| UserValues.OthersIgnored | internal/wguser/parse.go:99-184 | lines of unknown keys, and of keys that belong to the other part of the dump, change nothing, wherever they stand |
| UserExact.OperationsRead | internal/wguser/configure.go:101-107 | written operations are read as networks up to the first removal, which fails |
| UserExact.ConfigRoundTrip | internal/wguser/parse.go:48-184 | the written text is accepted exactly when no operation removes a network and every line fits the scanner, and then describes the device: set fields flagged, peers and masked networks in order |
| UserExact.AllNetworksKeptExactly | internal/wguser/parse.go:252-265 | the described peers have the networks they were configured with, in order, exactly when all of these are masked and none is an IPv4-mapped one |
| UserExact.HostBitsLost | internal/wguser/parse.go:252-265 | 10.0.0.1/8 is described as 10.0.0.0/8 |
| UserExact.RemovalUnreadable | internal/wguser/configure.go:101-107 | the text with the removal of 10.0.0.0/8 is rejected |
| UserExact.WriteThenParse | internal/wguser/configure.go:53-109 | writer and parser run one after the other |
| UserDaemon.DaemonObeys | internal/wguser/configure.go:53-109 | a daemon that serves the text line by line reads every line and does to any device what the configuration means, removals and flags included, with IPv4-mapped addresses as IPv4 |
| UserDaemon.DaemonObeysExactly | internal/wguser/configure.go:53-109 | without such addresses it does exactly what the configuration means |
| UserDump.DumpIsRead | internal/wguser/parse.go:48-184 | whatever device a daemon describes, with traffic counters and handshakes of all its peers, the parser returns it, or fails on a line that is too long |
| Quick.WireGuardConfig | internal/wgquick/config.go:57-95 | builds the configuration that replaces all peers and the networks of each, with every field of each peer carried over |
| Quick.HasDefaultRoute | internal/wgquick/config.go:128-143 | the search with early exit finds a default route exactly when there is one |
| QuickShell.DefaultRouteKey | internal/wgquick/quick_linux.go:207-235 | all default routes of a family are the same route, so a second one in a table is refused |
| QuickRuns.AddDefaultRules | internal/wgquick/quick_linux.go:237-243 | fails at the first or second rule exactly when that command does; failing at the second, the first stays |
| QuickRuns.AddRoutes | internal/wgquick/quick_linux.go:82-111 | runs the route and rule commands in order up to the first failure; on success each isolated family has exactly one pair of rules; on failure the rules are those recorded for rollback, plus a leaked one |
| QuickUpDown.Up | internal/wgquick/quick_linux.go:21-114 | runs its commands in order up to the first that is not fine, then only the deletions of its rollback, at most five; success, exactly when all are fine, raises the interface as configured, with the routes, DNS entry, hooks and order that `QuickRoutes.UpDoes` states; a failure whose rollback runs undisturbed leaves no interface, no route and no recorded rule |
| QuickUpDown.LeaksExactly | internal/wgquick/quick_linux.go:74-80 | after a failed Up with undisturbed rollback the policy rules differ exactly when the first command of its script to fail or be refused is the second rule of a pair, and then by the first rule of that pair |
| QuickRoutes.UpDoes | internal/wgquick/quick_linux.go:21-114 | a successful Up with Table off adds no route; with a table of its own it adds one there for exactly the networks of all peers; otherwise default routes get one in the table of the mark and other networks one in table 254 unless the interface was found to reach them, and nothing else; the DNS entry is there when resolvconf is found and works; PreUp hooks are the first and PostUp hooks the last commands; the interface is made, configured, addressed and up before anything is routed |
| QuickRoutes.ReadyMeans | internal/wgquick/quick_linux.go:42-73 | the interface that Up brings about has the addresses, MTU, keys, port and peers of the file, and its mark unless a default route is isolated |
| QuickRoutes.IsolatedExactly | internal/wgquick/config.go:117-143 | a family is isolated exactly when no table is named and some peer has its default route |
| QuickUpDown.SucceedsExactly | internal/wgquick/quick_linux.go:21-114 | whether Up gets through its script is decided by the environment before it starts: exactly when every command in it would be fine |
| QuickUpDown.LeakingUp | internal/wgquick/quick_linux.go:101-104 | a run that leaks: one peer with 0.0.0.0/0 on an empty network where only the seventh command fails ends without interface and with one rule |
| QuickUpDown.MarksAgree | internal/wgquick/config.go:97-124 | in auto mode with a default route the mark of the device, the mark in the rule and the table of rule and route are one number |
| QuickUpDown.Down | internal/wgquick/quick_linux.go:118-162 | undisturbed, takes away the interface, its routes, one pair of rules per isolated family and the DNS entry; whatever fails, never anything else; a failing PreDown hook stops it before it touches the network, and a successful run begins with the PreDown hooks and ends with the PostDown hooks |
| QuickUpDown.UpThenDown | internal/wgquick/quick_linux.go:21-162 | Down after a successful Up restores links, routes and the multiset of policy rules, when no command after the script of Up fails |
| Nodes.Merge | cmd/wg/syncgitee_linux.go:428-443 | the merge with its index map returns the list that `IsMerge` describes |
| Nodes.MergeDetermined | cmd/wg/syncgitee_linux.go:428-443 | there is only one such list |
| Nodes.MergeIdempotent | cmd/wg/syncgitee_linux.go:428-443 | merging the same local nodes again changes nothing |
| Nodes.MergeKeepsUnique | cmd/wg/syncgitee_linux.go:428-443 | with unique remote keys the merged keys are unique |
| Nodes.RemoteStays | cmd/wg/syncgitee_linux.go:428-443 | a remote node without a local one of its key stays at its position |
| Nodes.LocalWins | cmd/wg/syncgitee_linux.go:434-441 | each local key ends with its last local node |
| NodeText.ParseNodes | cmd/wg/syncgitee_linux.go:329-426 | the line loop returns the nodes of the text, or the failure of the first line that may not stand where it does, of a line that is too long, or of the last node |
| NodeText.EncodeNodes | cmd/wg/syncgitee_linux.go:445-472 | writes the lines of the nodes in order, with an empty line between two nodes |
| NodeRoundTrip.NodesRoundTrip | cmd/wg/syncgitee_linux.go:329-472 | the written text is accepted exactly when private keys match their public keys, keepalives are 0 to 65535 whole seconds and lines fit the scanner, and then gives the nodes in order without preshared keys |
| NodeRoundTrip.SharedAllExactly | cmd/wg/syncgitee_linux.go:445-472 | the nodes come back as they were but for the preshared keys exactly when none has an IPv4-mapped network or endpoint and all keepalives are whole seconds |
| NodeRoundTrip.MappedNodeChanges | cmd/wg/syncgitee_linux.go:445-472 | a node with the network ::ffff:10.0.0.0/104 comes back with 10.0.0.0/8 |
| NodeRoundTrip.ShareNodes | cmd/wg/syncgitee_linux.go:329-472 | writer and reader run one after the other |
| NodeRoundTrip.NetsShared | cmd/wg/syncgitee_linux.go:394-402 | the joined networks of a node are read as the networks their texts name, in order |
| NodeRows.NodesAreInterpreted | cmd/wg/syncgitee_linux.go:329-426 | for every text written in nodes and fields of any order, with comments and lines that do not belong there, reading is running an interpreter on the values: the same nodes, or the same failure at the same line |

## Left out

- Netlink, ioctl, socket and named-pipe calls and the netlink attribute encoding: messages and buffers are taken as given.
- The FreeBSD client: calls into an nvlist library that is not part of this model.
- Rejection of a peer that is the device itself, and of invalid IP addresses: every address of the model is valid.
- Random keys, curve25519, key generation: public keys are derived by a function parameter.
- Text that is not valid UTF-8: texts are sequences of Unicode characters, with byte lengths where the source measures bytes.
- A retry count of "infinity" with a name that never settles: every name settles after finitely many temporary failures.
- Names that settle differently within one parse: a name has one answer.
- Endpoints.EndpointRoundTrip: for zones without white space and without any of `# , % [ ]`, since a file has no faithful text for most others.
- int(d.Seconds()): computed on whole numbers; the floating-point result may differ for intervals far above the protocol's 65535 seconds.
- Endpoints without a host in the userspace protocol: treated as unreadable, where the source yields an address without IP.
- Updates in place of peers: a device is a value inside its parser object, so aliasing of peer pointers is not modelled; the current peer is always the last one.
- Index maps as Go maps in reassembly and merging: modelled as maps, iteration order does not occur.
- The text of errors: errors carry the line, peer or step they arise at.
- Coloured output (EncodeColor), the pretty printer, sorting and argument handling of the command line.
- The wg-quick file parser and printer: the same shape as the wg(8) file, which is modelled.
- Hooks of wg-quick: they may fail but are taken to leave links, routes and rules alone; whether `ip route show` prints a route is a parameter.
- Gist requests and the HTTP server.
- WindowsDriver.DriverObeys: for configurations without IPv4-mapped networks, whose records have no mask that fits them (WindowsParse.MappedNetLosesMask).
- UserDaemon.DaemonObeys: for ports of 16 bits, marks of 32 and intervals below 65536 seconds, which the protocol has room for, and for the endpoints of UserExact.ConfigRoundTrip.
- ConfigSettings.ParsedIsInterpreted: malformed values are not among the lines; which texts are values is stated by Base64.CanonicalExactly and ConfigValues.
- ConfigSettings.ParsedIsInterpreted: for the endpoints of Endpoints.EndpointRoundTrip; all others are the subject of ConfigValues.EndpointExactly.
- NodeRows.NodesAreInterpreted: for the lines of NodeRoundTrip.NodesRoundTrip, in any order.
- UserDump.DumpIsRead: for the endpoints of UserExact.ConfigRoundTrip.
- Drivers, kernels and daemons themselves: the ends modelled here follow the records and the protocol, not their programs.
- NodeRoundTrip.NodesRoundTrip: for names on one line without surrounding white space, and the endpoints of UserExact.ConfigRoundTrip.
- The record sizes of OpenBSD on other architectures: the offset lemmas hold for any sizes, the parser is modelled for amd64.
- Record counts above 2^31 in the OpenBSD dump: converted to int in the source, unbounded here.
- The scanner's handling of a final line delivered together with end of file: such a line may be one byte longer than the limit modelled here.
- SyncExact.TableConvergesExactly: for update-only entries behind one that makes or removes their peer, since the effect of others depends on which peers the device has had, and for fewer operations than there are IPv6 addresses.
- SyncExact.ConvergesExactly: for the same entries.
- SyncExact.SettingsDiffer: for the same entries.
- DeviceModel.ApplyOp: enters an IPv4-mapped IPv6 network as an IPv6 one, as the meaning of a configuration has it; the netlink encoding sends its address as IPv4 with the length unchanged, which the kernel refuses above 32.
- UserExact.ConfigRoundTrip: for endpoints with ports in range and, on IPv6 addresses only, zones of printable characters without `# , = % [ ]`.
