# MySQL Router keyring and bootstrap configuration generator

This project models two parts of MySQL Router as their unit tests pin them down.

- **The keyring** of the harness. It is an in-memory store of entries, each holding named attributes with byte-string values. It can be serialized into a buffer sealed under a master key of at most 255 bytes, and it can be saved to and loaded from a file that only its owner may read.
- **The bootstrap configuration generator.** `fill_options` turns the user's command-line options into routing endpoints, TLS settings and directory overrides. `create_config` writes the router's configuration file from those options. `fetch_bootstrap_servers` folds the rows of the cluster-metadata query into the bootstrap server list. Bootstrap also checks the router name and the master-key length, and it decides, with or without `--force`, whether an existing deployment may be overwritten. The `--ssl-mode` argument is parsed case-insensitively.

Modules:

| module | file | what it holds |
|---|---|---|
| `Wrappers` | wrappers.dfy | `Option` and `Result` |
| `Bytes` | bytes.dfy | bytes, little-endian 32-bit lengths, the abstract cipher |
| `EntryStore` | entry_store.dfy | the entry → attribute → value map and its operations |
| `Codec` | codec.dfy | record encoding, `Seal` and `Unseal` of a whole keyring |
| `Keyring` | keyring.dfy | the `KeyringMemory` and `KeyringFile` classes and a file system with permission flags |
| `CipherWitness` | cipher_witness.dfy | a toy cipher showing that the three cipher assumptions can hold together |
| `KeyringTests` | keyring_tests.dfy | the keyring test scenarios, proved for every cipher that meets the stated assumptions |
| `Text` | text.dfy | decimal printing and parsing, split and join, substring containment |
| `ConfigOptions` | config_options.dfy | `fill_options` |
| `ConfigWriter` | config_writer.dfy | `create_config` and the rendering of sections |
| `ConfigProperties` | config_properties.dfy | what the generated file says for given user options |
| `BootstrapServers` | bootstrap_servers.dfy | `fetch_bootstrap_servers` |
| `BootstrapChecks` | bootstrap_checks.dfy | router-name and master-key checks, `--ssl-mode` parsing, the overwrite decision |

The implementation files of the keyring and of the generator are not part of this model; only their tests are. So each operation is defined as the smallest behaviour that satisfies every assertion of its test. Where the tests leave a choice open, the choice is stated under "## Left out".

## Model

| member | source | states |
|---|---|---|
| EntryStore.FetchFailsIffMissing | mysql_harness/harness/tests/test_keyring.cc:140-154 | `fetch` fails with the out-of-range error exactly when the entry or the attribute is missing; otherwise it returns the stored value |
| EntryStore.FetchAfterStore | mysql_harness/harness/tests/test_keyring.cc:124-129 | after `store`, fetching the stored entry and attribute gives the new value, and every other fetch is unchanged |
| EntryStore.StoreOverwrites | mysql_harness/harness/tests/test_keyring.cc:131-138 | storing twice under the same entry and attribute is the same as storing the second value once, which fetch then returns |
| EntryStore.FetchAfterRemove | mysql_harness/harness/tests/test_keyring.cc:156-163 | after `remove` of an entry every fetch of it fails, and fetches of other entries are unchanged |
| EntryStore.FetchAfterRemoveAttribute | mysql_harness/harness/tests/test_keyring.cc:165-172 | after `remove_attribute` only that attribute's fetch fails; the entry itself stays and so do its other attributes |
| EntryStore.LexAsymmetric | mysql_harness/harness/tests/test_keyring.cc:190-206 | the byte order used to serialize entries in a fixed order is asymmetric |
| EntryStore.LexTransitive | mysql_harness/harness/tests/test_keyring.cc:190-206 | the byte order is transitive |
| EntryStore.LexTotal | mysql_harness/harness/tests/test_keyring.cc:190-206 | any two distinct byte strings are ordered |
| EntryStore.LeastUnique | mysql_harness/harness/tests/test_keyring.cc:190-206 | a set of names has at most one least element |
| EntryStore.Least | mysql_harness/harness/tests/test_keyring.cc:190-206 | every non-empty set of names has a least element |
| EntryStore.SortedKeys | mysql_harness/harness/tests/test_keyring.cc:190-206 | the serialized name order lists exactly the set's names, strictly ascending |
| Keyring.KeyringMemory.constructor | mysql_harness/harness/tests/test_keyring.cc:174-188 | a new keyring holds no entries |
| Keyring.KeyringMemory.Store | mysql_harness/harness/tests/test_keyring.cc:105-110 | `store` replaces the entries by the stored map; with FetchAfterStore, the stored value is fetched back |
| Keyring.KeyringMemory.Remove | mysql_harness/harness/tests/test_keyring.cc:156-163 | `remove` drops the entry and nothing else |
| Keyring.KeyringMemory.RemoveAttribute | mysql_harness/harness/tests/test_keyring.cc:165-172 | `remove_attribute` drops that attribute and nothing else |
| Keyring.KeyringMemory.Parse | mysql_harness/harness/tests/test_keyring.cc:208-254 | `parse` replaces the entries by the unsealed buffer; on a bad buffer or key it reports the error and keeps the old entries |
| Keyring.FileSystem.MakeFilePrivate | mysql_harness/harness/tests/test_keyring.cc:256-269 | making a file private sets its owner-only flag and changes nothing else |
| Keyring.FileSystem.MakeFilePublic | mysql_harness/harness/tests/test_keyring.cc:271-283 | making a file public clears its owner-only flag and changes nothing else |
| Keyring.FileSystem.DeleteFile | mysql_harness/harness/tests/test_keyring.cc:95-97 | deleting a file removes that path and only that path |
| Keyring.KeyringFile.constructor | mysql_harness/harness/tests/test_keyring.cc:174-188 | a new file keyring holds no entries |
| Keyring.KeyringFile.Save | mysql_harness/harness/tests/test_keyring.cc:174-206 | `save` writes the sealed keyring to the path as an owner-only file; when sealing fails it reports the error and leaves the files unchanged |
| Keyring.KeyringFile.Load | mysql_harness/harness/tests/test_keyring.cc:256-290 | `load` fails on a missing file and on a file others may read, keeping the entries; otherwise it reports the unseal error or replaces the entries by the file's contents |
| Codec.Records | mysql_harness/harness/tests/test_keyring.cc:190-206 | the flattened records are exactly the (entry, attribute, value) triples of the keyring |
| Codec.FetchAfterStoreAll | mysql_harness/harness/tests/test_keyring.cc:190-206 | replaying records taken from a keyring answers, for each name they mention, what that keyring answers |
| Codec.RebuildFetches | mysql_harness/harness/tests/test_keyring.cc:190-206 | rebuilding a keyring from its own records gives the same answer to every fetch |
| Codec.DecodeFieldOfEncoded | mysql_harness/harness/tests/test_keyring.cc:190-206 | a length-prefixed field decodes back to itself and leaves the rest of the buffer |
| Codec.DecodedFieldIsEncoded | mysql_harness/harness/tests/test_keyring.cc:208-235 | whatever decodes as a field is exactly that field's encoding followed by the rest |
| Codec.DecodeRecordOfEncoded | mysql_harness/harness/tests/test_keyring.cc:190-206 | an encoded record decodes back to itself |
| Codec.DecodedRecordIsEncoded | mysql_harness/harness/tests/test_keyring.cc:208-235 | whatever decodes as a record is exactly that record's encoding followed by the rest |
| Codec.DecodeEncodeRecords | mysql_harness/harness/tests/test_keyring.cc:190-206 | decoding the encoding of a record list gives the list back |
| Codec.EncodeDecodeRecords | mysql_harness/harness/tests/test_keyring.cc:208-235 | a buffer that decodes is exactly the encoding of what it decodes to, so decoding accepts no other buffer |
| Codec.SealKeyLength | src/router/tests/test_config_generator.cc:1366-1389 | sealing, and unsealing any buffer, fail with the key-too-long error exactly when the master key is longer than 255 bytes |
| Codec.SealSucceeds | mysql_harness/harness/tests/test_keyring.cc:174-206 | sealing succeeds exactly when the key is at most 255 bytes and every name and value fits a 32-bit length |
| Codec.FitRecordsEncodable | mysql_harness/harness/tests/test_keyring.cc:190-206 | a keyring whose fields fit 32-bit lengths flattens into encodable records |
| Codec.EncodableRecordsFit | mysql_harness/harness/tests/test_keyring.cc:190-206 | encodable records come only from a keyring whose fields fit, which is the converse |
| Codec.SealUnsealRoundTrip | mysql_harness/harness/tests/test_keyring.cc:190-206 | unsealing a sealed keyring under the same key gives a keyring answering every fetch as the original |
| Codec.EmptyRoundTrip | mysql_harness/harness/tests/test_keyring.cc:174-188 | an empty keyring seals under any key of at most 255 bytes and unseals to an empty keyring |
| Codec.SliceRejected | mysql_harness/harness/tests/test_keyring.cc:208-235 | with a tamper-evident cipher, every slice of a sealed buffer that stops before its last byte fails to unseal; slices that keep the last byte are the ones the test's guard skips |
| Codec.WrongKeyRejected | mysql_harness/harness/tests/test_keyring.cc:237-254 | with a key-bound cipher, a buffer sealed under one key fails to unseal under another |
| CipherWitness.AssumptionsSatisfiable | mysql_harness/harness/tests/test_keyring.cc:190-254 | some cipher is at once correct, key-bound and tamper-evident, so the round-trip and rejection lemmas that assume these are not vacuous |
| KeyringTests.FillKeyring | mysql_harness/harness/tests/test_keyring.cc:105-110 | the four `store` calls of the fixture give the filled keyring |
| KeyringTests.FilledHoldsTestData | mysql_harness/harness/tests/test_keyring.cc:117-122 | the filled keyring answers the four fetches of `verify_keyring`, whatever it held before |
| KeyringTests.FilledSeals | mysql_harness/harness/tests/test_keyring.cc:190-206 | the filled keyring seals under the test's AES key |
| KeyringTests.FilledRoundTrip | mysql_harness/harness/tests/test_keyring.cc:190-206 | the filled keyring seals, unseals, and still answers the four fetches |
| KeyringTests.SameFetches | mysql_harness/harness/tests/test_keyring.cc:117-122 | two keyrings that agree on every fetch agree on the test data |
| KeyringTests.UndefinedNames | mysql_harness/harness/tests/test_keyring.cc:140-154 | the names the miss tests fetch are not in the filled keyring |
| KeyringTests.StoreFetch | mysql_harness/harness/tests/test_keyring.cc:124-129 | after filling, the keyring holds the test data |
| KeyringTests.AttributeOverwrite | mysql_harness/harness/tests/test_keyring.cc:131-138 | a second `store` under the same names replaces the value |
| KeyringTests.FetchUndefined | mysql_harness/harness/tests/test_keyring.cc:140-154 | fetching `("InvalidEntry", "Attr")` and `("Entry", "AttrInvalid")` after `fill_keyring` both fail out of range; both entries are undefined (see Findings) |
| KeyringTests.UndefinedAttributeOfStoredEntry | mysql_harness/harness/tests/test_keyring.cc:148-154 | an attribute missing from an entry that `fill_keyring` stores fails out of range |
| KeyringTests.RemoveThenFetch | mysql_harness/harness/tests/test_keyring.cc:156-172 | after `remove` or `remove_attribute` the removed value is no longer fetched |
| KeyringTests.SaveAndLoadEmpty | mysql_harness/harness/tests/test_keyring.cc:174-188 | saving and loading an empty keyring succeeds and gives an empty keyring |
| KeyringTests.SaveAndLoadFilled | mysql_harness/harness/tests/test_keyring.cc:190-206 | saving and loading the filled keyring succeeds and gives back the test data |
| KeyringTests.SaveAndLoadBroken | mysql_harness/harness/tests/test_keyring.cc:208-235 | for every random draw the test makes, parsing the slice it cuts either is skipped by the test's own guard or fails and leaves the keyring empty |
| KeyringTests.SaveAndLoadWithInvalidKey | mysql_harness/harness/tests/test_keyring.cc:237-254 | parsing under a key other than the sealing key fails |
| KeyringTests.LoadFromFileWithCorrectPermissions | mysql_harness/harness/tests/test_keyring.cc:256-269 | a saved, owner-only keyring file loads with the test data |
| KeyringTests.LoadFromFileWithWrongPermissions | mysql_harness/harness/tests/test_keyring.cc:271-283 | a keyring file made public is refused with a permission error |
| KeyringTests.LoadFromNonexistentFile | mysql_harness/harness/tests/test_keyring.cc:285-290 | loading a missing file fails |
| Text.DigitsOfDecimal | src/router/tests/test_config_generator.cc:798-814 | reading back a printed port number gives the number |
| Text.ParseIntegerOfDecimal | src/router/tests/test_config_generator.cc:816-871 | a printed number, and its negation, parse back as whole-string integers |
| Text.ParseIntegerRejects | src/router/tests/test_config_generator.cc:816-871 | an empty string, a bare sign or trailing non-digits never parse |
| Text.SplitPiecesClean | src/router/tests/test_config_generator.cc:872-886 | no piece of a split contains the separator |
| Text.JoinSplit | src/router/tests/test_config_generator.cc:225-256 | joining the pieces of a split gives the string back |
| Text.SplitJoin | src/router/tests/test_config_generator.cc:225-256 | splitting a join of separator-free pieces gives the pieces back |
| Text.ContainsMiddle | src/router/tests/test_config_generator.cc:1753-1781 | a string contains whatever is written in its middle, the `HasSubstr` the tests match on |
| ConfigOptions.DottedQuadIsIPv4 | src/router/tests/test_config_generator.cc:782-796 | every dotted quad of octets is an accepted bind address |
| ConfigOptions.FillOptionsFails | src/router/tests/test_config_generator.cc:816-886 | `fill_options` fails exactly when a base port is given and invalid or a bind address is given and not an IPv4 address, and the error names the offending value |
| ConfigOptions.PortsInRange | src/router/tests/test_config_generator.cc:798-871 | every assigned port is a TCP port, and the four routes never share a port |
| ConfigOptions.EndpointSwitches | src/router/tests/test_config_generator.cc:888-958 | `skip-tcp` switches TCP off and `use-sockets` switches sockets on, per route; a route is enabled exactly when one of them is on, and multi-master has no read-only routes |
| ConfigOptions.OptionsEchoed | src/router/tests/test_config_generator.cc:766-796 | the multi-master flag, the bind address, the sockets directory, the three override directories and all seven TLS options are copied from the user's options |
| ConfigOptions.BasePortAssignsPorts | src/router/tests/test_config_generator.cc:798-814 | base port b, with no bind address or a valid one, gives b, b+1, b+2 and b+3 to the rw, ro, x-rw and x-ro routes |
| ConfigOptions.BasePortOutOfRange | src/router/tests/test_config_generator.cc:816-871 | base port 0, a negative one or one above 65532 is refused with "Invalid base-port number" naming the value |
| ConfigOptions.DefaultOptions | src/router/tests/test_config_generator.cc:942-958 | with no options the ports are 6446, 6447, 64460 and 64470, with no sockets, no bind address and no TLS settings |
| ConfigOptions.ValidBasePortOfDecimal | src/router/tests/test_config_generator.cc:816-871 | a printed number is a valid base port exactly when it lies in 1..65532; a negative one never is |
| ConfigOptions.BasePortAccepted | src/router/tests/test_config_generator.cc:816-871 | "1", "3306" and "65532" are accepted base ports |
| ConfigOptions.BasePortRefusedSmall | src/router/tests/test_config_generator.cc:816-871 | "0" and "-1" are refused |
| ConfigOptions.BasePortRefusedLarge | src/router/tests/test_config_generator.cc:816-871 | "65533", "65536" and "999999" are refused |
| ConfigOptions.BasePortRefusedText | src/router/tests/test_config_generator.cc:816-871 | "" and "2000bozo" are refused |
| ConfigOptions.LoopbackIsIPv4 | src/router/tests/test_config_generator.cc:782-796 | "127.0.0.1" is accepted as a bind address |
| ConfigOptions.MalformedAddresses | src/router/tests/test_config_generator.cc:872-886 | "", "invalid" and "1.2.3.4.5" are refused as bind addresses |
| ConfigWriter.CreateConfig | src/router/tests/test_config_generator.cc:359-756 | `create_config` writes the header and then, in order, the DEFAULT, logger and metadata-cache sections and the routing section of each enabled route |
| ConfigWriter.WriteLeadingSections | src/router/tests/test_config_generator.cc:367-422 | the first part of the file is the header followed by the DEFAULT, logger and metadata-cache sections |
| ConfigWriter.DefaultSectionText | src/router/tests/test_config_generator.cc:367-475 | the DEFAULT section carries `name=` and `user=` lines only when they are set |
| ConfigWriter.SslLinesText | src/router/tests/test_config_generator.cc:1753-1781 | the metadata section's TLS lines are the set TLS options, each as `key=value`, in a fixed order |
| ConfigWriter.SslLineInText | src/router/tests/test_config_generator.cc:1753-1781 | every TLS option that is set is written as its own `key=value` line |
| ConfigWriter.MetadataSectionText | src/router/tests/test_config_generator.cc:367-422 | the metadata-cache section names the cluster and carries the router id, bootstrap servers, user, TTL and TLS lines |
| ConfigWriter.RoutingSectionText | src/router/tests/test_config_generator.cc:367-647 | a routing section carries its TCP lines, its socket line, and the destinations, mode and protocol of its route |
| ConfigWriter.RouteNamesDistinct | src/router/tests/test_config_generator.cc:367-422 | the four routing section names differ exactly when the routes differ |
| ConfigWriter.RoutesFromMembers | src/router/tests/test_config_generator.cc:534-647 | the routing sections written are exactly those of the enabled routes in the list |
| ConfigWriter.RoutingSectionPresent | src/router/tests/test_config_generator.cc:534-756 | the file has a routing section for a route exactly when that route is enabled |
| ConfigProperties.MultiMasterSections | src/router/tests/test_config_generator.cc:710-756 | a multi-master file has routing sections only for the rw routes, and has them unless TCP is skipped without sockets |
| ConfigProperties.SocketOnlyEndpoint | src/router/tests/test_config_generator.cc:888-905 | with `skip-tcp` and `use-sockets` each route has no port and its own socket file |
| ConfigProperties.SocketOnlySection | src/router/tests/test_config_generator.cc:534-586 | with `skip-tcp` and `use-sockets` a routing section has a `socket=` line under the sockets directory and no TCP lines |
| ConfigProperties.DefaultTcpEndpoint | src/router/tests/test_config_generator.cc:925-958 | without TCP options each route gets its default port, plus its socket file when `use-sockets` is given |
| ConfigProperties.DefaultTcpSection | src/router/tests/test_config_generator.cc:589-647 | without TCP options a routing section binds 0.0.0.0 on its default port and adds a `socket=` line when `use-sockets` is given |
| ConfigProperties.DefaultPortsPrinted | src/router/tests/test_config_generator.cc:367-422 | the default ports are printed as 6446, 6447, 64460 and 64470 |
| ConfigProperties.FileLayout | src/router/tests/test_config_generator.cc:359-756 | the file is the header, the DEFAULT, logger and metadata sections, and then the routing sections |
| ConfigProperties.SslSettingWritten | src/router/tests/test_config_generator.cc:1753-1781 | any non-empty TLS option given to `fill_options` appears in the file as `key=value`, with its case kept |
| BootstrapServers.Urls | src/router/tests/test_config_generator.cc:225-256 | there is one URL per metadata row |
| BootstrapServers.JoinSnoc | src/router/tests/test_config_generator.cc:225-256 | appending one server URL adds a comma and that URL to the list |
| BootstrapServers.FetchBootstrapServers | src/router/tests/test_config_generator.cc:165-320 | no rows is an error; the fetch succeeds exactly when all rows name one cluster and one replicaset with a known topology; it then gives the comma-joined URLs, the names and the multi-master flag; otherwise it gives the error of the first bad row |
| BootstrapServers.ServersSplitBack | src/router/tests/test_config_generator.cc:225-256 | splitting the server list on commas gives back the URL of every row |
| BootstrapServers.FetchOneSingleMaster | src/router/tests/test_config_generator.cc:165-188 | one "pm" row gives that server, the names and no multi-master |
| BootstrapServers.FetchOneMultiMaster | src/router/tests/test_config_generator.cc:190-206 | one "mm" row gives multi-master |
| BootstrapServers.FetchUnknownTopology | src/router/tests/test_config_generator.cc:208-223 | an unknown topology is refused |
| BootstrapServers.FetchThree | src/router/tests/test_config_generator.cc:225-256 | three rows give the three URLs joined by commas |
| BootstrapServers.FetchMultipleReplicasets | src/router/tests/test_config_generator.cc:258-279 | two replicasets are refused |
| BootstrapServers.FetchMultipleClusters | src/router/tests/test_config_generator.cc:281-296 | two clusters are refused |
| BootstrapServers.FetchNoRows | src/router/tests/test_config_generator.cc:298-320 | an empty result is refused |
| BootstrapChecks.CheckRouterName | src/router/tests/test_config_generator.cc:1013-1056 | a name is accepted exactly when it is not "system", has no line break and has at most 255 characters; each refusal carries the message the test matches |
| BootstrapChecks.RouterNameExamples | src/router/tests/test_config_generator.cc:1013-1050 | "myname" and "" pass, "system" is reserved, and names with `\n` or `\r` contain invalid characters |
| BootstrapChecks.RouterNameTooLong | src/router/tests/test_config_generator.cc:1051-1056 | the 256-character name is "too long (max 255)." |
| BootstrapChecks.CheckMasterKey | src/router/tests/test_config_generator.cc:1345-1389 | a master key is accepted exactly when it has at most 255 bytes; a refusal says "too long" |
| BootstrapChecks.MasterKeyAgreesWithKeyring | src/router/tests/test_config_generator.cc:1345-1389 | the bootstrap key check accepts exactly the keys that do not make the keyring's seal and unseal fail with key-too-long |
| BootstrapChecks.MasterKeyExamples | src/router/tests/test_config_generator.cc:1366-1389 | keys of 250 and 255 bytes pass; keys of 256 and 5000 bytes are too long |
| BootstrapChecks.ParseSslMode | src/router/tests/test_config_generator.cc:1586-1664 | `--ssl-mode` gives a mode exactly when the argument equals that mode's name ignoring case; anything else is "Invalid value for --ssl-mode option" |
| BootstrapChecks.ParseSslModeOfName | src/router/tests/test_config_generator.cc:1600-1664 | each mode's own name parses back to that mode |
| BootstrapChecks.SslModeRejected | src/router/tests/test_config_generator.cc:1586-1597 | "bad" is an invalid ssl mode |
| BootstrapChecks.SslModeSpellings | src/router/tests/test_config_generator.cc:1686-1716 | "DISABLED", "preferred", "rEqUIrEd", "VERIFY_CA" and "verify_identity" give their modes |
| BootstrapChecks.DecideOverwrite | src/router/tests/test_config_generator.cc:1238-1342 | overwriting fails exactly when a deployment exists for another cluster and `--force` is not given, with a hint to use `--force`; a backup is taken exactly when an existing configuration changes |
| BootstrapChecks.DeploymentDirectory.Bootstrap | src/router/tests/test_config_generator.cc:1211-1342 | bootstrap succeeds exactly when the name is valid and there is no deployment, the same cluster, or `--force`; success installs the new configuration, and a failure changes nothing |
| BootstrapChecks.OverwriteRow | src/router/tests/test_config_generator.cc:1245-1342 | one row of the overwrite table: the second bootstrap fails exactly for another cluster without `--force`, and it backs up exactly when it succeeds and changes the name or the cluster |

## Left out

- The AES cipher is not modelled. `Cipher` is abstract, and the properties the tests rely on are stated as assumptions on it: `Correct` (decryption inverts encryption), `KeyBound` (another key does not decrypt) and `TamperEvident` (a cut buffer does not decrypt). `CipherWitness.AssumptionsSatisfiable` shows that a toy cipher meets all three, so they are consistent.
- File permissions of the operating system are an owner-only flag per file, and file I/O is a map from paths to contents.
- KeyringTests.SaveAndLoadBroken: the test draws the slice with `rand()`; the model takes the two draws as parameters and holds for all of them.
- The typed keyring tests, written for both keyring classes, are modelled against `KeyringMemory` only; `KeyringFile` holds one, and its save and load are modelled on their own.
- The MySQL session mocks, the expected bootstrap query sequences, account creation, the DIM and the fake random generator are not modelled.
- Directory creation and cleanup on a failed bootstrap (test_config_generator.cc 1059-1158) are not modelled.
- Reading the generated file back (1160-1205, 1478-1532) is not modelled.
- The errno-based messages for bad master-key files (1391-1476) are not modelled.
- Command-line parsing of MySQLRouter is not modelled, except for the `--ssl-mode` value; `main` and socket start-up are not modelled.
- The ssl mode is only parsed. Handing the TLS options to the session (`set_ssl_options`) is not modelled; the options are only carried into the configuration file.
- ConfigOptions.FillOptions accepts only IPv4 dotted quads as a bind address; host-name resolution is not modelled.
- The logdir, rundir and datadir overrides are carried in the options but not rendered into the file.
- The NULL topology value of a metadata row and an empty sockets directory are not modelled separately.
- The full-file literal comparisons of `create_config_single_master` are replaced by lemmas about the file's section layout and each section's lines. The position of the TLS lines within the metadata section beyond "after the TTL" is a modelling choice.
- BootstrapChecks.CheckRouterName: the tests pin only the ends of the too-long message and not the order of the three checks; the model checks the reserved name, then line breaks, then length.
- BootstrapChecks.CheckMasterKey: only "too long" is pinned in the message.
- BootstrapChecks.DecideOverwrite: only the `--force` hint is pinned in the message, and a backup is decided by a change of name or cluster rather than by comparing file contents.
- BootstrapServers.FetchBootstrapServers: only the error kinds are modelled, not their message texts; the order in which a row's faults are checked is a modelling choice.
- The record format of a sealed keyring is a modelling choice that the tests do not pin: a version byte, then one record per (entry, attribute) pair in byte-lexicographic order of entry and attribute names, each field with a little-endian 32-bit length prefix.
- Codec.SealUnsealRoundTrip: an entry with no attributes left (after `remove_attribute` of its last one) writes no record, so it does not survive a save and load; the round trip promises equal answers to every `fetch`, not an equal map.
- BootstrapServers.FetchBootstrapServers: the multi-master flag is taken from the topology of the last row; the tests only use rows that share one topology.
- Keyring.FileSystem.MakeFilePrivate and Keyring.FileSystem.MakeFilePublic do nothing on a path that does not exist; the tests call them only on a saved file.

## Findings

| source | as written | input that shows it | evidently intended | confidence | as-written member | corrected member |
|---|---|---|---|---|---|---|
| mysql_harness/harness/tests/test_keyring.cc:148-154 | `FetchUndefinedAttribute` fetches `("Entry", "AttrInvalid")`, but `fill_keyring` (105-110) stores only entries "E1" and "E2", so the lookup misses on the entry and never reaches the missing-attribute path | `fetch("Entry", "AttrInvalid")` after `fill_keyring`: "Entry" is not a stored entry | fetch a missing attribute of a stored entry, such as `("E1", "AttrInvalid")` | high; not executed | KeyringTests.UndefinedNames | KeyringTests.UndefinedAttributeOfStoredEntry |
