# cloudinventario in Dafny

cloudinventario collects an inventory of virtual machines, hosts, clusters,
load balancers and storage from several clouds and hypervisors. The clouds
are AWS EC2, multi-account AWS, Lightsail, Azure, Google Cloud, vCloud
Director, vSphere and Hetzner Cloud. Each record passes through one
normaliser, `new_record`, and a batch of records is stored under per-source
snapshot versions.

This project models the pure core of that pipeline as immutable datatypes
and total functions:

- **Record normaliser and OS classifier** (`Record`, `Platform`):
  - the merge of collector defaults;
  - the truthiness rules that lift the 17 scalar columns;
  - the three JSON columns;
  - the `attributes` residual;
  - the first-match-wins OS family classifier with its RouterOS override.
- **Snapshot versions** (`Storage`): what `InventoryStorage.save` computes from the ledger of maximal versions and a batch. That is the version stamped on every record, the ledger rows written with their entry counts, and the returned flag.
- **Collector loading** (`Inventario`, `Resources`):
  - the enabled-collector filter;
  - the module-name mangling and the config merge;
  - the login → fetch → logout call sequence, as a trace;
  - the resource manager's union of requested resources.
- **Per-provider transforms**, one module per collector file: `AwsEbs`, `AwsElb`, `AwsEc2`, `AwsMulti`, `Lightsail`, `LightsailLb`, `Azure`, `Gcp`, `GcpGclb`, `GcpCloudSql`, `Vcd`, `VSphere` and `Hetzner`. They cover the folds, lookups, string extractions and fallbacks that turn an SDK payload into the attribute map handed to `new_record`.

Python semantics are modelled explicitly in a few shared modules:

- **Truthiness and values** (`Values`): `if x:`, `a or b`, `d.get(k)`, and `int()` on the value shapes the code meets.
- **Exceptions** (`Wrappers`): modelled as `Result` with a `PyError` (KeyError, IndexError, TypeError, AttributeError, ValueError, ImportError).
- **Dicts** (`Assoc`): assignment into a dict in a loop, where the last write wins.
- **Regular expressions** (`Regex`): the few shapes used, `re.match(".*P")`, `re.sub(".*P", "")`, `re.sub("P.*", "")` and `re.findall("P(.*?)/")[0]`. Each works line by line, because `.` does not match a newline.
- **Floor division**: Python's `//` by a positive divisor is Dafny's `/`.

SDK answers (pages, descriptions, instance views) are parameters. The JSON
encoder is a function parameter `encode`. The set of importable modules is
a parameter too.

## Model

| member | source | states |
|---|---|---|
| Record.BaseRecord | src/cloudinventario/helpers.py:68-110 | the record carries the given type and the collector's name. Each of the 17 scalar columns is the merged value when truthy, else None. `networks`/`storages`/`tags` are the encoding of a truthy value, else "[]". `attributes` is None exactly when nothing is left over, else the encoding of the residual map |
| Record.NewRecord | src/cloudinventario/helpers.py:68-111 | a successful call keeps the type, the source and the encoded details. It has exactly the 17 scalar columns, and every column except `os`/`os_family` is the lifted merged value |
| Record.NewRecordColumns | src/cloudinventario/helpers.py:75-100 | column by column: a present truthy value is copied and a missing or falsy one gives None. The JSON columns fall back to "[]", and `attributes` holds exactly the residual |
| Record.ResidualPartition | src/cloudinventario/helpers.py:84-100 | the residual holds exactly the merged keys that are not a scalar or JSON key with a truthy value, each with its merged value |
| Record.CallerOverridesDefaults | src/cloudinventario/helpers.py:75-89 | on a shared key the caller's value wins over the default. A falsy caller value gives None in the column and stays in the residual |
| Record.WithOs | src/cloudinventario/helpers.py:102-106 | the OS step changes only the `os` and `os_family` columns: type, source, details and every other column stay as they were |
| Record.NewRecordOs | src/cloudinventario/helpers.py:102-106 | with a falsy `os`, `os` is None and `os_family` is only lifted. With a truthy `os`, `os` is rewritten by `get_os`, and `os_family` is recomputed unless an explicit falsy `os_family` stayed in the residual. So an explicit truthy `os_family` is overwritten |
| Record.NewRecordFailsOnlyOnTypeError | src/cloudinventario/helpers.py:102-106 | the normaliser fails exactly when a truthy `os` is not a string, or is Linux-like with a truthy non-string description (the regex raises TypeError) |
| Record.NameAndTagsExample | src/cloudinventario/helpers.py:68-111 | a worked example: a name and truthy tags give a record with that name, the encoded tags, no attributes and no os |
| Platform.GetOsFamily | src/cloudinventario/platform.py:4-29 | the family is always one of Linux, RouterOS, Windows, VMware, Cisco, Other |
| Platform.FamilyPriority | src/cloudinventario/platform.py:15-29 | each family is returned exactly when its test holds and no earlier test does, in the order Linux, Windows, RouterOS, VMware, Cisco, with the RouterOS description override inside Linux |
| Platform.DescriptionIgnoredUnlessLinux | src/cloudinventario/platform.py:15-34 | about `Platform.GetOs`: for an os that is not Linux-like, the description changes neither the family nor the os |
| Platform.GetOsRewritesOnlyOnOverride | src/cloudinventario/platform.py:17-34 | about `Platform.GetOs`: `get_os` changes its input only under the RouterOS-on-Linux condition. Then it gives "RouterOS/Linux", and the family is RouterOS |
| Platform.RouterOSLinuxIsLinux | src/cloudinventario/platform.py:3-5 | "RouterOS/Linux" itself matches the Linux pattern |
| Platform.GetOsIdempotent | src/cloudinventario/platform.py:31-34 | about `Platform.GetOs`: with a fixed description, applying `get_os` twice is applying it once, and the family of the rewritten os is unchanged |
| Platform.SingleLineTests | src/cloudinventario/platform.py:3-11 | on a one-line string, the Linux test is "contains linux, ignoring case" or "starts with a listed distribution", and the other four tests are case-insensitive "contains" |
| Platform.UbuntuExamples | src/cloudinventario/platform.py:15-34 | about `Platform.GetOs`: "Ubuntu 20.04" is Linux and kept. With a "RouterOS v6" description it is RouterOS and becomes "RouterOS/Linux" |
| Inventario.Collectors | src/cloudinventario/cloudinventario.py:16-21 | a name is listed iff some configured collector has it without `disabled` equal to True, and the list keeps config order (a subsequence of the names) |
| Inventario.DisabledExactlyTrue | src/cloudinventario/cloudinventario.py:19 | with distinct names, a collector is listed iff its `disabled` is neither True nor 1 (Python's `1 == True`) |
| Inventario.Mangle | src/cloudinventario/cloudinventario.py:40-42 | the mangled module name contains no '/', '.' or '-' |
| Inventario.MangleIsCharwise | src/cloudinventario/cloudinventario.py:40-42 | the three substitutions equal one character-wise map: '/', '.' and '_' become "__", '-' becomes "_", anything else is kept |
| Inventario.MangleLength | src/cloudinventario/cloudinventario.py:40-42 | the mangled length is the input length plus the number of '/', '.' and '_' |
| Inventario.MangleCollisions | src/cloudinventario/cloudinventario.py:40-42 | "a/b", "a.b" and "a_b" mangle to the same name |
| Inventario.MangleOneSeparator | src/cloudinventario/cloudinventario.py:40-41 | each of '/', '.', '_' between two letters becomes "__" |
| Inventario.Package | src/cloudinventario/cloudinventario.py:44 | the package is "cloudinventario_" followed by the mangled name, with no '/' or '-' |
| Inventario.MergeConfig | src/cloudinventario/cloudinventario.py:45-48 | the merged config keeps every other key and value, sets `_collector_pkg` to the package, and sets `_resources` to `collect` or [] |
| Inventario.LoadCollectorModule | src/cloudinventario/cloudinventario.py:39-52 | a successful load imports the package's `.collector` module and passes the merged config, the defaults and the options (or {}) |
| Inventario.LoadCollector | src/cloudinventario/cloudinventario.py:28-36 | an unknown collector is a KeyError on its name, and a missing `module` a KeyError on "module". The defaults are the `default` entry or {} |
| Inventario.Collect | src/cloudinventario/cloudinventario.py:54-70 | every run changes to /tmp, loads the collector, and ends by changing back to the original directory |
| Inventario.Run | src/cloudinventario/cloudinventario.py:54-70 | whatever the loader returned, the run starts in /tmp with the load and ends back in the original directory |
| Inventario.CollectSequence | src/cloudinventario/cloudinventario.py:54-70 | login, fetch and logout happen in that order, each only if everything before it succeeded |
| Inventario.CollectOutcome | src/cloudinventario/cloudinventario.py:54-70 | the result is fetch's value iff loading and all three calls succeed; otherwise it is the first error: the loader's, login's, fetch's or logout's |
| Inventario.UnknownCollector | src/cloudinventario/cloudinventario.py:28-70 | an unconfigured collector is a KeyError, and the directory is still restored |
| Resources.ReadData | src/cloudinventario/helpers.py:141-146 | a reader that raises yields None instead of failing, and otherwise its data |
| Resources.ReadAll | src/cloudinventario/helpers.py:128-131 | reading succeeds iff every module is importable. The keys are the names read, each with its reader's data, and a failure is the ImportError of a missing module |
| Resources.GetResourceData | src/cloudinventario/helpers.py:120-133 | the result has exactly one entry per distinct name of the dependency list and the resource list, each with its reader's data |
| Resources.GetResourceDataOrderFree | src/cloudinventario/helpers.py:123-133 | whatever order the set is iterated in, the result is the same |
| Storage.Active | src/cloudinventario/storage.py:86-100 | the active sources are the ledger rows with version plus one, or none when the first row's source is falsy |
| Storage.ActiveVersions | src/cloudinventario/storage.py:86-100 | the loop computes exactly the active sources and their version map |
| Storage.NewSources | src/cloudinventario/storage.py:104-108 | the sources appended are exactly the batch's sources not in the ledger, each once |
| Storage.Keep | src/cloudinventario/storage.py:113-119 | the rows kept are exactly the listed sources with records in the batch, each with its record count |
| Storage.FoldVersions | src/cloudinventario/storage.py:97-109 | about `Storage.Fold`: after the batch loop every source has a version: its ledger version plus one, or 1 when new |
| Storage.FoldSources | src/cloudinventario/storage.py:104-108 | about `Storage.Fold`: the batch loop appends one (source, 1) per new source, in first-appearance order |
| Storage.FoldEntries | src/cloudinventario/storage.py:110-111 | about `Storage.Fold`: the entry counts are exactly the batch's per-source record counts |
| Storage.FoldStamped | src/cloudinventario/storage.py:109 | about `Storage.Fold`: every record is kept, in order, stamped with its source's version |
| Storage.StampBatch | src/cloudinventario/storage.py:102-111 | the loop stamps every record with its source's version, lists the new sources and counts the entries |
| Storage.KeepCounted | src/cloudinventario/storage.py:113-119 | the loop keeps exactly the counted sources |
| Storage.Save | src/cloudinventario/storage.py:84-129 | records keep their order and gain their source's version (ledger maximum plus one, or 1). The ledger rows written are the batch's distinct sources, once each, with their counts summing to the batch length. The flag is false iff the ledger yielded no source and the batch is empty |
| Storage.SavedRows | src/cloudinventario/storage.py:96-119 | the rows written carry their source's version, cover every source of the batch and name no source twice |
| Storage.KnownIsLedgerPlusOne | src/cloudinventario/storage.py:90-100 | the version map holds each ledger source at its maximum plus one |
| Storage.SourcesVersions | src/cloudinventario/storage.py:96-108 | the source list has distinct names, each with its version, and covers the batch |
| Storage.VersionIsMaxPlusOne | src/cloudinventario/storage.py:97-109 | a source in the ledger gets its maximum plus one, and a source not in it gets 1 |
| Storage.FalsyFirstRowRestarts | src/cloudinventario/storage.py:91-94 | when the first ledger row's source is falsy, every source restarts at version 1 |
| Storage.SavedPairsAreFresh | src/cloudinventario/storage.py:86-119 | no written (source, version) pair is already in the ledger table, so the uniqueness constraint holds |
| Storage.EntriesSumToBatch | src/cloudinventario/storage.py:103-119 | the written entry counts sum to the number of records |
| AwsEbs.ReadAttachmentsKeys | src/cloudinventario_amazon_aws/res_collectors/ebs.py:18-25 | the attachment loop adds exactly the instances its attachments name |
| AwsEbs.ReadAttachmentsUsage | src/cloudinventario_amazon_aws/res_collectors/ebs.py:18-39 | one volume credits its size to its first attachment's instance and adds one entry per attachment |
| AwsEbs.ReadEbsMatchesReference | src/cloudinventario_amazon_aws/res_collectors/ebs.py:11-40 | about `AwsEbs.ReadEbs`: the keys are exactly the attached instances. Each instance's entries are its attachments in volume then attachment order, and its size counts each volume once, on its first attachment in original order |
| AwsEbs.VolumeEntriesCount | src/cloudinventario_amazon_aws/res_collectors/ebs.py:18-39 | an instance gets one entry per attachment naming it |
| AwsEbs.EntriesDescribeVolumes | src/cloudinventario_amazon_aws/res_collectors/ebs.py:31-39 | every entry carries its volume's id, its attachment's device and the size in MB |
| AwsEbs.UnattachedVolumeIgnored | src/cloudinventario_amazon_aws/res_collectors/ebs.py:17-18 | about `AwsEbs.ReadEbs`: a volume without attachments changes nothing |
| AwsEbs.SharedVolumeCountedOnce | src/cloudinventario_amazon_aws/res_collectors/ebs.py:27-29 | about `AwsEbs.ReadEbs`: a volume shared by two instances is listed on both but sized only on the first |
| AwsElb.AggregateMatchesReference | src/cloudinventario_amazon_aws/resources/elb.py:36-45 | about `AwsElb.AggregateStatus`: the status loop gives "on" if any instance is in service, else "off" if any is out of service, else "unknown" |
| AwsElb.AggregateOrderFree | src/cloudinventario_amazon_aws/resources/elb.py:36-45 | about `AwsElb.AggregateStatus`: the aggregate does not depend on instance order |
| AwsElb.HealthStates | src/cloudinventario_amazon_aws/resources/elb.py:47-49 | one key per distinct instance id, holding the state of its last occurrence |
| AwsElb.ProcessResource | src/cloudinventario_amazon_aws/resources/elb.py:33-72 | `instances` and `status` are the same health map. The balancer is on iff some instance is in service, and the name, owner and tags are copied |
| AwsElb.NoInstancesUnknown | src/cloudinventario_amazon_aws/resources/elb.py:35-66 | about `AwsElb.AggregateStatus`: without instances the status is "unknown", the health map is empty and the balancer is off |
| AwsElb.MixedStatesExample | src/cloudinventario_amazon_aws/resources/elb.py:38-45 | about `AwsElb.AggregateStatus`: an out-of-service instance before an in-service one still gives "on", and unknown then out of service gives "off" |
| AwsEc2.FetchPages | src/cloudinventario_amazon_aws/collector.py:34-51 | pages are requested until one has a missing or empty token. The instances are those of the requested pages, in order |
| AwsEc2.TypeDataOf | src/cloudinventario_amazon_aws/collector.py:56-75 | a type's entry has its vCPUs and memory, and one local disk per storage disk with size in MB, type and ssd flag. It has no disks without storage info |
| AwsEc2.CacheTypes | src/cloudinventario_amazon_aws/collector.py:56-76 | every returned type is cached (the last of equal names winning), and other entries are kept |
| AwsEc2.GetInstanceType | src/cloudinventario_amazon_aws/collector.py:53-81 | the service is queried only on a cache miss. The cache only grows, and the result is the cached entry or the "not found" error |
| AwsEc2.LookupMemoised | src/cloudinventario_amazon_aws/collector.py:53-54 | a second lookup of a found type is answered from the cache, without a query |
| AwsEc2.UnknownTypeRaises | src/cloudinventario_amazon_aws/collector.py:78-79 | a type the query does not return raises "Instance type '…' not found" |
| AwsEc2.Networks | src/cloudinventario_amazon_aws/collector.py:87-96 | one network per interface, in order, connected iff its status is "in-use" |
| AwsEc2.TagMap | src/cloudinventario_amazon_aws/collector.py:98-100 | the tag list becomes a map with the last duplicate winning, and missing tags give {} |
| AwsEc2.VmData | src/cloudinventario_amazon_aws/collector.py:83-128 | cpus is CoreCount when truthy, else the type's vCPUs. primary_ip and primary_fqdn are private, else public. os is Platform, else "Other". is_on is 1 iff running. The disks, storages and memory come from the type |
| AwsEc2.NoTypeQueriedTwice | src/cloudinventario_amazon_aws/collector.py:41-76 | about `AwsEc2.ProcessAll`: across a whole fetch no type is queried twice, or when it was cached at the start |
| AwsEc2.ProcessAllRecords | src/cloudinventario_amazon_aws/collector.py:41-128 | about `AwsEc2.ProcessAll`: a successful fetch yields one record per instance, in order, with that instance's id and type |
| AwsEc2.SharedTypeQueriedOnce | src/cloudinventario_amazon_aws/collector.py:53-76 | about `AwsEc2.ProcessAll`: two instances of one type cause one query |
| AwsMulti.AddCredsLoopAppends | src/cloudinventario_amazon_aws_multi/collector.py:65-81 | with truthy regions, one credential per region is appended in order, each with that region and the given account, keys and token. Earlier credentials are kept |
| AwsMulti.AddCredsLoopNeedsTruthy | src/cloudinventario_amazon_aws_multi/collector.py:66-74 | the explicit-region path is taken only when every region is truthy |
| AwsMulti.AddRolesConcatenates | src/cloudinventario_amazon_aws_multi/collector.py:39-49 | each role adds its own credentials after the earlier roles' ones, using the role's regions or the global ones |
| AwsMulti.Clients | src/cloudinventario_amazon_aws_multi/collector.py:52-61 | one client per credential, in order, named "{name}@{account}" with a falsy account written as 0 |
| AwsMulti.NoRolesNoClients | src/cloudinventario_amazon_aws_multi/collector.py:39-61 | without roles (missing or empty) there are no credentials and no clients |
| AwsMulti.FetchConcatenates | src/cloudinventario_amazon_aws_multi/collector.py:102-111 | about `AwsMulti.Fetch`: the fetch succeeds iff every client does, with their records concatenated in client order. Otherwise it raises the first failing client's error |
| AwsMulti.NoClientsFetchEmpty | src/cloudinventario_amazon_aws_multi/collector.py:102-111 | about `AwsMulti.Fetch`: with no clients the fetch returns [] |
| Lightsail.GetTags | src/cloudinventario_amazon_lightsail/collector.py:53-57 | each tag key maps to its value (None when absent), the last duplicate winning. A missing list gives {} |
| Lightsail.Entries | src/cloudinventario_amazon_lightsail/collector.py:68-80 | one storage entry per disk, attached or not, in order |
| Lightsail.ProcessVm | src/cloudinventario_amazon_lightsail/collector.py:59-102 | processing fails with TypeError exactly when the RAM size or the disk list is missing. disks is the number of disks, and each entry's size is in MB. storage is the attached total, primary_ip is private else public, and is_on is 1 iff running. The owner and tags are copied |
| Lightsail.StorageBounds | src/cloudinventario_amazon_lightsail/collector.py:66-80 | storage counts only attached disks: between 0 and the total of the listed disks, equal to it when all are attached and 0 when none is |
| Lightsail.Fetch | src/cloudinventario_amazon_lightsail/collector.py:42-51 | every instance of every page is processed, in order, and the first error ends the listing |
| LightsailLb.HealthStates | src/cloudinventario_amazon_lightsail/resources/lb.py:37-42 | one key per distinct instance name, unnamed entries filed under "unknown_instance", the last entry for a key winning |
| LightsailLb.ProcessResource | src/cloudinventario_amazon_lightsail/resources/lb.py:33-58 | on iff the state is "active" or "active_impaired". The status is the raw state, and instances is the health map. The owner and tags are copied |
| LightsailLb.UnnamedCollapse | src/cloudinventario_amazon_lightsail/resources/lb.py:38-42 | two unnamed entries collapse into one, holding the later |
| LightsailLb.Fetch | src/cloudinventario_amazon_lightsail/resources/lb.py:22-31 | one record per balancer of every page, in order |
| Azure.PiecesMatchLower | src/cloudinventario_microsoft_azure/collector.py:256-265 | the pairwise loop accepts iff the lower-cased piece lists are equal |
| Azure.CheckIdsIsEqualsCI | src/cloudinventario_microsoft_azure/collector.py:243-265 | about `Azure.CheckIds`: the id comparison is exactly case-insensitive equality of the whole ids |
| Azure.CheckIdsEquivalence | src/cloudinventario_microsoft_azure/collector.py:243-265 | about `Azure.CheckIds`: the comparison is reflexive and symmetric |
| Azure.GetResourceGroupName | src/cloudinventario_microsoft_azure/collector.py:267-280 | the group is the fifth '/'-piece when the id has at least four '/', else an IndexError that escapes the handler |
| Azure.ResourceGroupExample | src/cloudinventario_microsoft_azure/collector.py:275-277 | "/s/1/g/RG" gives "RG" |
| Azure.ShortIdExample | src/cloudinventario_microsoft_azure/collector.py:275-277 | "/s/1" has no fifth piece, so the lookup raises IndexError |
| Azure.GetOsDiskSize | src/cloudinventario_microsoft_azure/collector.py:229-241 | the size in MB of the first disk whose id matches, and None iff none does; TypeError when that disk has no size |
| Azure.CreateDisksDetails | src/cloudinventario_microsoft_azure/collector.py:208-227 | the first matching spec among the data disks and then the OS disk, and None iff every spec is managed and none matches; AttributeError iff an unmanaged spec comes before any match |
| Azure.ManagedId | src/cloudinventario_microsoft_azure/collector.py:224 | the managed-disk id, or AttributeError iff the disk is unmanaged |
| Azure.FirstSpec | src/cloudinventario_microsoft_azure/collector.py:220-227 | the index of the first matching spec, None iff every spec is managed and none matches, and AttributeError at an unmanaged spec reached before any match |
| Azure.DataDiskFirst | src/cloudinventario_microsoft_azure/collector.py:220-225 | a matching data disk is found before the OS disk, and the lookup cannot end in None; it succeeds when the data disks before it are managed |
| Azure.GetDictWithDetails | src/cloudinventario_microsoft_azure/collector.py:196-206 | only `details_from_vm` is set, and every other key is unchanged |
| Azure.GetDisks | src/cloudinventario_microsoft_azure/collector.py:184-194 | one dict per disk of the group, each with its spec from the VM or None; it succeeds iff every disk's spec lookup does, and otherwise raises AttributeError |
| Azure.ConfigAddresses | src/cloudinventario_microsoft_azure/collector.py:336-344 | the private address and the first listed public address with exactly the configuration's id. AttributeError without a public address, and IndexError iff no listed id equals it |
| Azure.NetworkAddresses | src/cloudinventario_microsoft_azure/collector.py:310-346 | (None, None) without a primary configuration, else the addresses of the last one. It succeeds iff every configuration does, and otherwise fails with the error of the first that fails |
| Azure.DiskAndNetworkLookups | src/cloudinventario_microsoft_azure/collector.py:99-106 | the disk, OS-disk and address lookups in line order; success iff each succeeds, with their values |
| Azure.GetCreatedTime | src/cloudinventario_microsoft_azure/collector.py:154-167 | the creation time of the first matching resource, and IndexError iff none matches |
| Azure.GetVmInfo | src/cloudinventario_microsoft_azure/collector.py:169-181 | the first size named like the VM's, and IndexError iff none is |
| Azure.ProcessVm | src/cloudinventario_microsoft_azure/collector.py:85-138 | processing succeeds iff the VM has a matching resource, a group piece and a listed size, its disk lookups succeed, its OS disk is managed, its OS disk size is readable, its primary addresses resolve, and it has a second status. Otherwise it raises IndexError, AttributeError or TypeError. A TypeError points at a group disk without a size. An AttributeError points at an unmanaged disk spec or at a primary configuration without a public address. is_on is 1 iff that status is "VM running". primary_ip is private else public, and project is the group. storage is the OS disk size, and storages are the group's disks with their specs. tags are the VM's or [] |
| Azure.PrivateOnlyVmRaises | src/cloudinventario_microsoft_azure/collector.py:336-338 | a primary configuration without a public address fails the whole VM with AttributeError once the earlier lookups pass |
| Azure.Fetch | src/cloudinventario_microsoft_azure/collector.py:69-83 | every VM processed in order with the subscription's resource list; the error is that of the first VM that fails |
| Gcp.TypeNameIsLastSuffix | src/cloudinventario_google_gcp/collector.py:83-130 | the machine or disk type name is the suffix after the last marker, and a URL without the marker is kept whole |
| Gcp.Networks | src/cloudinventario_google_gcp/collector.py:104-116 | one network per interface, in order, with its first access config's NAT address |
| Gcp.EntryOf | src/cloudinventario_google_gcp/collector.py:123-145 | a disk's entry takes its metadata from the first description with the disk's name, else empty strings. Its size is in MB |
| Gcp.Entries | src/cloudinventario_google_gcp/collector.py:123-145 | one storage entry per attached disk, in order |
| Gcp.StorageIsSumOfEntries | src/cloudinventario_google_gcp/collector.py:136-159 | storage is the total of the entries' sizes |
| Gcp.ProcessVm | src/cloudinventario_google_gcp/collector.py:103-173 | a missing access config is an IndexError, and a missing disk description list with some disk is a TypeError. Otherwise disks counts the attached disks, storage is their total and is_on is 1 iff RUNNING. primary_ip and public_ip come from the first interface |
| Gcp.Named | src/cloudinventario_google_gcp/collector.py:76-77 | the instances processed are exactly those with a name |
| Gcp.Fetch | src/cloudinventario_google_gcp/collector.py:67-101 | a listing without items is a KeyError. Otherwise each named instance is processed, in order, with the machine type its URL names |
| Gcp.UnnamedSkipped | src/cloudinventario_google_gcp/collector.py:76-77 | an instance without a name adds nothing |
| GcpGclb.Extract | src/cloudinventario_google_gcp/resources/gclb.py:64-66 | `findall(...)[0]` is the first match's group. A None input is a TypeError, and no match is an IndexError |
| GcpGclb.MapMember | src/cloudinventario_google_gcp/resources/gclb.py:72-76 | a member's entry is the instance name after "instances/" and its status |
| GcpGclb.MapMembers | src/cloudinventario_google_gcp/resources/gclb.py:69-76 | one entry per member, in order |
| GcpGclb.ProcessBackend | src/cloudinventario_google_gcp/resources/gclb.py:62-84 | the zone is read before the group, and the members are listed only for the found zone and group. A missing group is a TypeError, and a group URL without a zone an IndexError |
| GcpGclb.ZoneOfGroupUrl | src/cloudinventario_google_gcp/resources/gclb.py:64 | the zone is the segment after the first "zones/" |
| GcpGclb.InstanceGroupOfGroupUrl | src/cloudinventario_google_gcp/resources/gclb.py:66 | the group is everything after the first "instanceGroups/" |
| GcpGclb.ProcessInstancesGroup | src/cloudinventario_google_gcp/resources/gclb.py:59-87 | one entry per backend, in order, and the first error ends it |
| GcpGclb.ProcessHealthCheck | src/cloudinventario_google_gcp/resources/gclb.py:93-120 | `check` holds every present protocol sub-dict. `status` holds only the present http, https, http2 and grpc ones, each with its response, and never ssl or tcp |
| GcpGclb.SslTcpOnlyReportsNothing | src/cloudinventario_google_gcp/resources/gclb.py:108-111 | a check with only ssl or tcp sub-dicts reports no status |
| GcpGclb.ProcessHealthChecks | src/cloudinventario_google_gcp/resources/gclb.py:89-121 | one entry per listed check, and none without items |
| GcpGclb.ProcessAddress | src/cloudinventario_google_gcp/resources/gclb.py:127-140 | exactly the eleven copied keys, each with its value or None |
| GcpGclb.ProcessAddresses | src/cloudinventario_google_gcp/resources/gclb.py:123-141 | one entry per listed address, and none without items |
| GcpGclb.StatusListIsFilter | src/cloudinventario_google_gcp/resources/gclb.py:145-151 | the status list is the health checks with a non-empty status, in order, each wrapped as {'status': s} |
| GcpGclb.ProcessResource | src/cloudinventario_google_gcp/resources/gclb.py:143-168 | instances are the health checks, subnets the addresses and backends the groups. status is the filtered statuses |
| GcpGclb.ProcessService | src/cloudinventario_google_gcp/resources/gclb.py:47-53 | a service's record fails iff its backends do, and otherwise carries the shared lists and its own groups |
| GcpGclb.Fetch | src/cloudinventario_google_gcp/resources/gclb.py:25-57 | no items gives no records. Otherwise there is one record per service, in order, from the same health checks and addresses |
| GcpCloudSql.VersionSplitRoundTrip | src/cloudinventario_google_gcp/resources/cloud_sql.py:62-63 | with one '_', the type and version are the two halves and join back to the original |
| GcpCloudSql.VersionWithoutSeparator | src/cloudinventario_google_gcp/resources/cloud_sql.py:62-63 | without '_', type and version are both the whole string |
| GcpCloudSql.FindTier | src/cloudinventario_google_gcp/resources/cloud_sql.py:42-43 | the tier detail is the first tier whose `str` equals the instance's tier, and None when there is none or no tier |
| GcpCloudSql.PrimaryIp | src/cloudinventario_google_gcp/resources/cloud_sql.py:58 | the address of the first PRIMARY entry, else None |
| GcpCloudSql.ProcessResourceAsWritten | src/cloudinventario_google_gcp/resources/cloud_sql.py:55 | as written, a missing tier detail raises TypeError before anything else |
| GcpCloudSql.UnknownTierRaises | src/cloudinventario_google_gcp/resources/cloud_sql.py:42-55 | an instance whose tier is not listed fails as written, and is processed by the corrected guard |
| GcpCloudSql.ProcessResource | src/cloudinventario_google_gcp/resources/cloud_sql.py:51-85 | it succeeds iff the disk size, addresses and version are present and settings exist, and otherwise fails with the line-order error. id equals name, storage is in MB and is_on is 1 iff RUNNABLE. The primary address, type and version are as above |
| GcpCloudSql.Fetch | src/cloudinventario_google_gcp/resources/cloud_sql.py:25-49 | with the corrected guard: no items gives no records. Otherwise each instance is processed, in order, with its first matching tier, and it succeeds iff every instance does |
| GcpCloudSql.FetchAsWritten | src/cloudinventario_google_gcp/resources/cloud_sql.py:25-49 | as written: no items gives no records. Otherwise each instance is processed in order with its first matching tier, and the error is that of the first instance that fails |
| GcpCloudSql.UnknownTierFailsListing | src/cloudinventario_google_gcp/resources/cloud_sql.py:42-55 | as written, one processable instance whose tier is not listed fails the whole listing, with TypeError when the instances before it succeed; the corrected listing processes it |
| Vcd.NetworkOf | src/cloudinventario_vmware_vcd/collector.py:142-151 | a nic entry is a network iff its value is a dict (else AttributeError). It is connected iff the value is exactly "true", primary iff its ip equals ipAddress, and named by its name or its key |
| Vcd.Networks | src/cloudinventario_vmware_vcd/collector.py:141-154 | one network per "nic-" key, in key order |
| Vcd.PrimaryIpIsPrimaryNic | src/cloudinventario_vmware_vcd/collector.py:140-153 | about `Vcd.PrimaryIp`: primary_ip is ipAddress unless a network is the primary-nic, and then it is that network's ip |
| Vcd.DiskOf | src/cloudinventario_vmware_vcd/collector.py:160-170 | a disk's capacity is `int(size-MB)`, with the errors `int` raises |
| Vcd.Storages | src/cloudinventario_vmware_vcd/collector.py:158-171 | one storage per "disk-" key, in key order |
| Vcd.ListedOr | src/cloudinventario_vmware_vcd/collector.py:155-173 | a list replaces the VM's own value only when it is non-empty |
| Vcd.Index | src/cloudinventario_vmware_vcd/collector.py:177 | `rec[k]` gives the value under k iff the key is present, and KeyError(k) otherwise |
| Vcd.IndexAll | src/cloudinventario_vmware_vcd/collector.py:176-193 | reading keys in turn succeeds iff every key is present, with each key's value, and otherwise raises the KeyError of the first missing key |
| Vcd.ReadVmFields | src/cloudinventario_vmware_vcd/collector.py:176-194 | the record's fields succeed iff the indexed keys are present and both `int` calls succeed, and each field holds its key's value |
| Vcd.ProcessVmlistVm | src/cloudinventario_vmware_vcd/collector.py:127-194 | it succeeds iff the directly indexed keys (DateCreated, name, vdcName, vappName, id, guestOs, status, ownerName) are present, the nic and disk loops succeed and the CPU and memory counts convert with `int`. A missing name raises KeyError("name") before anything else. Any KeyError names a missing indexed key. disks is the number of "disk-" keys, and storage the sum of their sizes. The primary address is as above. networks and storages are set only when non-empty, os and owner are the map's, and is_on follows the power state |
| Vcd.NameOnlyVmRaises | src/cloudinventario_vmware_vcd/collector.py:175-177 | a VM map holding only its name raises KeyError("DateCreated") |
| Vcd.BareVm | src/cloudinventario_vmware_vcd/collector.py:139-173 | a VM without nic or disk keys has no disks, storage 0 and its own ipAddress |
| Vcd.FloorDiv | src/cloudinventario_vmware_vcd/collector.py:215 | `//` by a positive divisor is the floor quotient |
| Vcd.ReadVappFields | src/cloudinventario_vmware_vcd/collector.py:207-221 | the record succeeds iff the indexed keys are present and the three `int` calls succeed. storage is the floor of the KB value over 1024 |
| Vcd.ProcessVapp | src/cloudinventario_vmware_vcd/collector.py:196-221 | it succeeds iff creationDate, name, vdcName, status and ownerName are present and the three `int` calls succeed. A missing name raises KeyError("name"), and any KeyError names a missing indexed key. id and name are the vApp name, and cluster and project the vdc. storage is storageKB // 1024, or 0 when absent |
| Vcd.AttrPairs | src/cloudinventario_vmware_vcd/collector.py:264-267 | the attribute branch keeps at most the attributes it is given |
| Vcd.AttrPairsSpec | src/cloudinventario_vmware_vcd/collector.py:264-267 | exactly the attributes other than "type" are kept, under their first-lower-cased keys |
| Vcd.ToDictAttributes | src/cloudinventario_vmware_vcd/collector.py:258-270 | about `Vcd.ToDict`: an element with attributes only becomes a dict keyed by those lower-cased keys, each holding an attribute's value |
| Vcd.VappRecords | src/cloudinventario_vmware_vcd/collector.py:113-125 | vApps that all fail give no records |
| Vcd.FailingVappSkipped | src/cloudinventario_vmware_vcd/collector.py:116-122 | a failing vApp is skipped wherever it stands, and the others' records are kept |
| VSphere.FloorSumBound | src/cloudinventario_vmware_vsphere/collector.py:233-245 | rounding each size down before summing never gives more than rounding the sum |
| VSphere.DatastoreInfoOf | src/cloudinventario_vmware_vsphere/collector.py:235-243 | a datastore's capacity is in whole MB, rounded down. ssd comes from its vmfs info, else None |
| VSphere.HostNetOf | src/cloudinventario_vmware_vsphere/collector.py:257-262 | a physical NIC's address is the virtual NIC's with the same MAC when truthy, else its own. The subnet comes from the virtual NIC |
| VSphere.HostPrimaryAddress | src/cloudinventario_vmware_vsphere/collector.py:256-267 | about `VSphere.ScanPnics`: the host's primary address is the first truthy NIC address, and stays falsy when there is none |
| VSphere.HostPrimaryFlags | src/cloudinventario_vmware_vsphere/collector.py:263-266 | about `VSphere.ScanPnics`: the scan changes only the flags, and a NIC is primary iff its truthy address equals the final primary address |
| VSphere.ProcessHost | src/cloudinventario_vmware_vsphere/collector.py:189-287 | a host that is not connected gives no record. Otherwise storage is the total capacity in whole MB, set with storages only when positive. memory is in whole MB, networks exist iff there are physical NICs, and is_on is 1 iff powered on |
| VSphere.HostPrimaryIp | src/cloudinventario_vmware_vsphere/collector.py:249-269 | a connected host's primary address is its first truthy NIC address or None. Exactly the NICs with that address are flagged |
| VSphere.NoTruthyIpKeepsNone | src/cloudinventario_vmware_vsphere/collector.py:253-264 | about `VSphere.ScanPnics`: with no truthy NIC address the primary address stays None |
| VSphere.HostStoragesWithinStorage | src/cloudinventario_vmware_vsphere/collector.py:229-246 | the datastores' MB never add up to more than the host's storage |
| VSphere.ProcessHostsIsConnectedHosts | src/cloudinventario_vmware_vsphere/collector.py:182-192 | one server record per connected host, in host order |
| VSphere.ProcessCluster | src/cloudinventario_vmware_vsphere/collector.py:151-187 | the cluster's memory is in whole MB, its name, id and cpus are copied, and it is followed by one record per connected host |
| VSphere.DiskInfoOf | src/cloudinventario_vmware_vsphere/collector.py:397-417 | a disk's capacity is in whole MB, its profile the backing's datastore, and thin only for a flat backing |
| VSphere.AliasLength | src/cloudinventario_vmware_vsphere/collector.py:448 | the alias prefix length is the address's own, with 0 written as 32 |
| VSphere.AliasRoundTrip | src/cloudinventario_vmware_vsphere/collector.py:448 | an alias splits at '/' back into the address and a length that parses to the alias length |
| VSphere.PartitionNoV4 | src/cloudinventario_vmware_vsphere/collector.py:437-448 | without an address of prefix length at most 32, the NIC takes none and all addresses become aliases |
| VSphere.PartitionFirstV4 | src/cloudinventario_vmware_vsphere/collector.py:437-448 | the first address of prefix length at most 32 becomes the NIC's (prefix kept when nonzero), and all the others become aliases, in order |
| VSphere.PartitionAfterV4 | src/cloudinventario_vmware_vsphere/collector.py:437-448 | the same partition when addresses follow the chosen one |
| VSphere.PartitionLastV4 | src/cloudinventario_vmware_vsphere/collector.py:437-448 | the same partition when the chosen address is the last |
| VSphere.ScanKeepsPrimaryFollows | src/cloudinventario_vmware_vsphere/collector.py:443-444 | the VM's primary address, once truthy, stays. While falsy it is the NIC's chosen address |
| VSphere.ScanIgnoresPrimary | src/cloudinventario_vmware_vsphere/collector.py:437-448 | the NIC's own fields do not depend on the VM's primary address |
| VSphere.ProcessNicSpec | src/cloudinventario_vmware_vsphere/collector.py:429-450 | about `VSphere.ProcessNic`: a NIC's entry is its address view, flagged iff its address is truthy and equals the primary address after it |
| VSphere.VmPrimaryAddress | src/cloudinventario_vmware_vsphere/collector.py:427-450 | about `VSphere.ScanNics`: the VM's primary address is the starting one when truthy, else the first NIC's truthy address |
| VSphere.VmPrimaryFlags | src/cloudinventario_vmware_vsphere/collector.py:449-450 | about `VSphere.ScanNics`: each NIC is flagged iff its address is truthy and equals the VM's final primary address |
| VSphere.InitialPrimary | src/cloudinventario_vmware_vsphere/collector.py:376 | the starting primary address is the guest address when it is truthy and has no ':', else None |
| VSphere.ProcessVm | src/cloudinventario_vmware_vsphere/collector.py:350-513 | storage is the total disk capacity in whole MB (0 when not positive), and storages holds one entry per disk. project is the folder path and cluster the runtime cluster, else the listed one. is_on and template are 0/1. Every listed network has an address |
| VSphere.VmPrimaryIp | src/cloudinventario_vmware_vsphere/collector.py:376-450 | the VM's primary address is the guest address when usable, else the first NIC's truthy address |
| VSphere.VmNetworks | src/cloudinventario_vmware_vsphere/collector.py:449-492 | networks exist iff some NIC has a truthy address, and a listed NIC is primary iff its address is the VM's |
| VSphere.NicNetworks | src/cloudinventario_vmware_vsphere/collector.py:449-492 | about `VSphere.ScanNics`: after the NIC scan, some NIC has an address iff some guest NIC took a truthy one, and each such NIC is flagged primary iff its address is the primary address the scan ends with |
| VSphere.VmStoragesWithinStorage | src/cloudinventario_vmware_vsphere/collector.py:412-419 | the disks' MB never add up to more than the VM's storage |
| VSphere.Walk | src/cloudinventario_vmware_vsphere/collector.py:289-328 | a folder beyond the maximal depth yields nothing. Otherwise it yields its vapp record first, named by its path, and a VM yields exactly one VM record |
| VSphere.WalkMachine | src/cloudinventario_vmware_vsphere/collector.py:326-327 | a VM found in the walk yields exactly its processed record, under the current folder path |
| VSphere.FolderPathDepth | src/cloudinventario_vmware_vsphere/collector.py:293-296 | one level down the path has one more '.'-separated name and extends the parent's |
| VSphere.VappNamesWithinDepth | src/cloudinventario_vmware_vsphere/collector.py:292-310 | every vapp record is named by at most ten folder names joined by '.', extending the starting path |
| Hetzner.ToDict | src/cloudinventario_hetzner_hcloud/collector.py:39-54 | an ignored key or a level past ten gives None. A slotted object gives a dict, a list a list of the same length, and anything else itself |
| Hetzner.SlotPairs | src/cloudinventario_hetzner_hcloud/collector.py:45-47 | one pair per slot, keyed by the first-lower-cased name, with the slot converted one level down |
| Hetzner.ListItemsConverted | src/cloudinventario_hetzner_hcloud/collector.py:48-51 | a list converts element-wise, in order, one level down |
| Hetzner.ToDictBounded | src/cloudinventario_hetzner_hcloud/collector.py:41-44 | the output never nests deeper than the levels left: at most ten from the top |
| Hetzner.SlotEntries | src/cloudinventario_hetzner_hcloud/collector.py:43-47 | each dict entry is some slot converted under its name, and slots named server_types, prices or servers become None |
| Hetzner.SlotKeysCovered | src/cloudinventario_hetzner_hcloud/collector.py:43-47 | every slot's name is a key of the dict, holding the conversion of the last slot with that name |
| Hetzner.ProcessVm | src/cloudinventario_hetzner_hcloud/collector.py:56-103 | is_on iff status is "running". id and status are read from the converted server, and a missing server_type, memory or disk fails |
| Hetzner.Fetch | src/cloudinventario_hetzner_hcloud/collector.py:31-37 | one record per server, in order, and the first error ends it |

## Left out

- SDK, network and login/logout code (boto3, googleapiclient, azure-mgmt, pyVmomi, pyvcloud, hcloud): these are opaque I/O. Their answers (pages, descriptions, instance views, statuses) are parameters of the model.
- Dynamic imports (`importlib`): the importable modules are a set or a registry parameter.
- JSON encoding and `CloudEncoder`: the encoder is an uninterpreted function parameter.
- The database side of `InventoryStorage`: the engine, the schema and the transaction around the inserts are the database's job. `cleanup` is an empty stub.
- Concurrency: the `threading.Lock` in `store`, the thread pools of vSphere (collector.py:139-147) and vCD (collector.py:231-236), and `time.sleep` in the Hetzner fetch. Thread pools return results in completion order; the model lists them in submission order.
- Resource-collector orchestration: `_get_dependencies` is never called, and `get_resource_data` iterates a set. The iteration order is a parameter of `Resources.GetResourceData`, and no ordering is claimed.
- Regex case folding and `str.lower` are modelled on ASCII letters only. Python's Unicode-aware folding is not modelled.
- `int()` is modelled on ints, booleans and plain decimal strings with an optional sign. Surrounding whitespace and underscores, which Python also accepts, are not modelled.
- Direct indexing of SDK payload fields that the model keeps as datatype fields (`rec["KeyName"]`, `rec["creationTimestamp"]`, …) is assumed to find its key. Lookups whose failure the model states are modelled with their error.
- Hetzner.ProcessVm: the floating-point memory and disk sizes (lines 71-74) are left out. Only their key lookups are modelled.
- Lightsail.ProcessVm: `memory` is `ramSizeInGb * 1024` in floating point. The model keeps the raw value and checks only that it is present.
- GcpCloudSql.ProcessResource: the floating-point `memory` and `disks` (lines 52-57, 70-71) are not part of the record model.
- Gcp.ProcessVm: `int(diskSizeGb)` is taken as already parsed, and its ValueError is not modelled.
- AwsEc2.VmData: says nothing about `storage`, which the source stores as a one-element tuple because of a trailing comma (line 65).
- AwsMulti: region discovery (collector.py:83-99) calls the EC2 API and builds dicts keyed by the variables' values. `AwsMulti.Login` returns None where it would start.
- AwsElb.ProcessResource, LightsailLb.Fetch, GcpGclb.Fetch, GcpCloudSql.Fetch: these resource classes call `get_client`, `process_resource`, `new_record` and `self.collector`. Their base class `CloudInvetarioResource` (src/cloudinventario/helpers.py:135-146) defines only `__init__(client, res_type)` and `read_data`. The model takes those members as given: the client answers are parameters and the result is the attribute map handed to `new_record`. As written, these classes would raise AttributeError before reaching the modelled logic.
- Azure: the SDK listings (resources, VM sizes, group disks, instance view, interfaces, public addresses) are parameters.
- Azure.ProcessVm: the `networks` list built per matching interface (lines 321-333) is not modelled, and neither are its two failures. An interface without IP configurations raises IndexError at line 327. A first configuration without a subnet raises AttributeError at line 329. The primary configurations of the primary interfaces arrive already selected, in loop order.
- Vcd: `__process_vdc`'s vdc record and query merge (lines 87-111), and `__process_vm`'s merge of disk settings (lines 239-256), are not modelled. `__process_vapp`'s `return [res]` on a failed VM listing (line 229) and the thread pool are left out too.
- VSphere.ProcessVm: the DVS-port map and the "Cisco fix" heuristics (collector.py:58-114, 452-490) are not modelled. The networks are the NICs with a truthy address, which is the `elif net['ip']` branch. The runtime and listed cluster names are parameters (the `vm2cluster` map and the host lookup in a `try`).
- VSphere.Walk: virtual apps are left out. Their branch uses an undefined `vm.vm` (line 315), and their memory comes from the vApp summary. Folders yield vapp records with memory 0. Datacenter iteration and the root-folder walk (lines 117-149) are not modelled.
- Hetzner: the load balancer and volume resources call a `collector._to_dict` that does not exist; they are not part of this model.
- Context files outside the core (libcloud, S3, RDS, Lightsail disks and databases, the GCP storage resource, the AWS ELB resource collector, `res_helpers.py`) are not part of this model.

## Findings

| source | as written | input that shows it | evidently intended | confidence | as-written member | corrected member |
|---|---|---|---|---|---|---|
| src/cloudinventario_google_gcp/resources/cloud_sql.py:55 | `'RAM' in instance['tierDetail']` runs whenever the key exists, and `_fetch` always sets it, to None when no tier matches | an instance whose settings name a tier missing from `tiers.list` (or with no tier): `'RAM' in None` raises TypeError and ends the whole listing | treat a None tier detail like a missing one, giving memory 0 | not executed | GcpCloudSql.ProcessResourceAsWritten, GcpCloudSql.UnknownTierRaises, GcpCloudSql.FetchAsWritten, GcpCloudSql.UnknownTierFailsListing | GcpCloudSql.ProcessResource, GcpCloudSql.Fetch |
