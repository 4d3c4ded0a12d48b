# satinv core, modelled in Dafny

satinv builds an Ansible dynamic inventory from a Red Hat Satellite server.
It caches every API response on disk, in files next to an expiry table
(`expire.json`, item URL -> epoch second). Hosts are grouped by host
collection, by the IPv4 subnets named in the configuration, and into a
"valid" group of hosts that are licensed and have checked in recently.

This project models the parts of satinv that make decisions:

- `cacher.dfy` (module `Cacher`) is the URL cache, as the class `Cacher.Cache`.
  - It covers registering an item, deciding whether it has expired, and
    fetching it or reading it from its file.
  - It covers the expiry table: importing it with a one-week horizon and
    writing it back.
  - The disk is the class `Cacher.FileSystem`. It holds the content files as
    byte strings and the expiry tables in parsed form.
  - Failures come from its `unreadable` and `readOnly` path sets.
  - The clock (`now`) and the API's reply are parameters.
- `cidrs.dfy` (module `Cidrs`) is the map from names to IPv4 subnets
  (`Cidrs.Cidrs`), and the membership test of an address.
  - Addresses are `bv32` values, and a mask is a shifted `bv32`.
- `config.dfy` (module `Config`) covers:
  - the defaults and tilde expansion that `ParseConfig` applies to a decoded
    configuration;
  - `expandTilde`;
  - the precedence that chooses the configuration path in `ParseFlags`.
- `satinv.dfy` (module `Satinv`) covers:
  - host short names and inventory group names;
  - the checks of the "valid" group;
  - the ID check on a fetched host collection;
  - `mkInventory`'s choice between rebuilding the inventory and reusing the
    cached copy.
- `common.dfy` and `paths.dfy` hold `Option`/`Result`, bytes, and the
  `path.Join` used for cache files.

Integers are unbounded. Times are whole epoch seconds.

## Model

| member | source | states |
|---|---|---|
| Paths.Join | cacher/cacher.go:107 | The joined path starts with the directory and ends with the name. When both are non-empty it puts exactly one `/` between them. |
| Cacher.ExpireTime | cacher/cacher.go:235-238 | An item refreshed now expires exactly `period` seconds later, and never before now for a non-negative period. |
| Cacher.Registered | cacher/cacher.go:106-110 | Registering an item adds exactly that key. Every known expiry is kept, and a new item starts at 0. |
| Cacher.Prune | cacher/cacher.go:128-138 | Import keeps exactly the entries newer than one week before now, with their values unchanged. |
| Cacher.PruneLater | cacher/cacher.go:128-138 | Pruning at t1 and then at a later t2 is the same as pruning once at t2. So re-importing a table never brings back a dropped entry. |
| Cacher.FreshEntrySurvivesImport | cacher/cacher.go:128-138 | An entry that has not expired survives import with its value. An entry older than the one-week horizon is always dropped. |
| Cacher.Cache.constructor | cacher/cacher.go:39-49 | A new cache has no items, no refresh, no API and a zero period. Its expiries are the pruned persisted table, or nothing when there is no table. |
| Cacher.Cache.ImportExpiry | cacher/cacher.go:114-139 | The pruned entries of the persisted table are added over the current expiries. A missing or unparsable table adds nothing. |
| Cacher.Cache.ExportExpiry | cacher/cacher.go:142-160 | The table is written with the current time and every expiry. It fails exactly when the table path cannot be written, and then nothing changes. |
| Cacher.Cache.WriteExpiryFile | cacher/cacher.go:170-174 | The table is written only once `UpdateExpiry` has run in this process. The flag is never cleared, so a later call writes it again. A failed write leaves it unchanged. |
| Cacher.Cache.GetFilename | cacher/cacher.go:51-57 | Returns the item's content file. An unregistered item is the fatal error. |
| Cacher.Cache.InitAPI | cacher/cacher.go:59-62 | Marks the API client as initialised. |
| Cacher.Cache.SetRefresh | cacher/cacher.go:65-68 | Forces every item to count as expired. |
| Cacher.Cache.SetCacheDuration | cacher/cacher.go:229-232 | Sets the period that a fetched item stays fresh. |
| Cacher.Cache.HasExpired | cacher/cacher.go:70-100 | The result is an error exactly for an unregistered item. Otherwise it is true iff a refresh is forced, the file is missing, there is no expiry entry, or now is past the expiry. |
| Cacher.Cache.ExpiredStaysExpired | cacher/cacher.go:70-100 | An item that has expired stays expired at every later time while nothing else changes. |
| Cacher.Cache.ExpiryOrder | cacher/cacher.go:70-100 | A forced refresh or a missing file means expired whatever the expiry says. A new item's zero expiry is stale at any positive time. Otherwise only the timestamp decides. |
| Cacher.Cache.AddURL | cacher/cacher.go:104-111 | Sets the item's file to the name inside the cache directory. It keeps an imported expiry, and otherwise registers the item as expired (0). |
| Cacher.Cache.UpdateExpiry | cacher/cacher.go:163-168 | Sets the item's expiry to now plus the period and returns it. Marks the table for writing. No other entry changes. |
| Cacher.Cache.GetURLFromAPI | cacher/cacher.go:177-197 | With no API client, a failed fetch or a failed file write, it returns the matching error and changes nothing. Otherwise the body is stored in the item's file and returned, and the expiry advances by the period. |
| Cacher.Cache.GetURL | cacher/cacher.go:201-217 | A fresh, readable item comes from its file without an API call. An expired or unreadable item is fetched. An unregistered item is an error. After a fetch (no forced refresh, non-negative period) the item is fresh. |
| Cacher.Cache.GetFile | cacher/cacher.go:220-226 | Returns the bytes of the item's file. An unreadable file is the fatal error. An unregistered item reads the empty path, which always fails. |
| Cacher.Cache.Restart | cacher/cacher.go:170-174 | Writing the table and opening the cache again later gives back exactly the entries within the horizon at the later time. |
| Cidrs.Mask | cidrs/cidr.go:23 | Bit i of the mask is set exactly when i >= 32 - prefixLen, so the top prefixLen bits are set. /0 is empty and /32 is all ones. |
| Cidrs.MaskKeepsTopBits | cidrs/cidr.go:23 | Masking an address is the same as shifting out its host bits and shifting back. |
| Cidrs.Contains | cidrs/cidr.go:23 | A /0 subnet contains every address. A /32 subnet contains exactly its network address. |
| Cidrs.ParseSubnet | cidrs/cidr.go:31-37 | The parsed subnet has the given prefix length. Its network agrees with the written address under the mask. |
| Cidrs.SubnetContainsOwnAddress | cidrs/cidr.go:23 | A subnet contains the address it was written with. |
| Cidrs.TestSubnets | cidrs/cidrs_test.go:16-38 | 192.168.0.5 is in 192.168.0.0/24 and not in 192.168.1.0/24. 192.168.1.254 is the other way round. |
| Cidrs.Cidrs.constructor | cidrs/cidr.go:9-10 | A new map of subnets is empty. |
| Cidrs.Cidrs.ParseCIDRs | cidrs/cidr.go:14-28 | The result lists each name whose subnet contains the address, each once, and nothing else. |
| Cidrs.Cidrs.AddCIDR | cidrs/cidr.go:31-37 | The name now maps to the parsed subnet. No other name changes. |
| Cidrs.Cidrs.AddCIDRMap | cidrs/cidr.go:40-44 | Every name in the given map gets its parsed subnet, and every other name keeps its old one. |
| Cidrs.TestCIDR | cidrs/cidrs_test.go:16-38 | After adding test1 and test2, 192.168.0.5 is reported in test1 and not in test2. 192.168.1.254 is reported in test2 and not in test1. |
| Config.ExpandTilde | config/config.go:129-142 | `~` becomes the home directory and `~/p` becomes p inside it. Every other path is unchanged. |
| Config.ExpandTildeIdempotent | config/config.go:129-142 | Expanding twice is the same as expanding once, provided the home directory is non-empty and does not start with `~`. |
| Config.WithDefaults | config/config.go:108-123 | A zero valid-hours becomes 48, and zero host or collection validity becomes 28800 seconds. A zero inventory validity becomes 7200 seconds. Every non-zero value is kept. The cache directory and log file are tilde-expanded. Nothing else changes. |
| Config.WithDefaultsIdempotent | config/config.go:108-123 | Applying the defaults twice is the same as applying them once. |
| Config.ParseConfig | config/config.go:94-126 | A file that cannot be opened or decoded is the matching error. Otherwise the result is the decoded configuration with the defaults applied. |
| Config.ParseFlags | config/config.go:71-91 | `--config` wins, then a non-empty SATINVCFG, then `/etc/ansible/satinv.yml`. The path is never empty. The other flags pass through. |
| Satinv.ShortName | satinv.go:34-36 | The result is the longest prefix of the host name that contains no `.`. |
| Satinv.ShortNameIdempotent | satinv.go:34-36 | The short name of a short name is itself. |
| Satinv.ToLower | satinv.go:62 | Each character is lowered and the length is unchanged. |
| Satinv.ReplaceSpaces | satinv.go:63 | Each space becomes `_`, every other character is kept, and the length is unchanged. |
| Satinv.GroupSuffix | satinv.go:62-63 | Each character of the collection name is lowered, or turned into `_` if it is a space. The length is unchanged, and no space or capital letter remains. |
| Satinv.MkInventoryName | satinv.go:61-66 | The result is the inventory prefix followed by the collection name in that form. |
| Satinv.GroupSuffixStable | satinv.go:61-66 | Normalising an already normalised name changes nothing. |
| Satinv.HostVerdict | satinv.go:242-280 | A host is valid iff all of these hold: it is not excluded; it has a non-zero OS id; its subscription status is 0; it has a parsable check-in no earlier than now minus the valid days. Exclusion is checked first. |
| Satinv.Inventory.constructor | satinv.go:28-31 | A new inventory has no groups. |
| Satinv.Inventory.HgSatValid | satinv.go:242-288 | A valid host's short name is appended to the valid group. Any other host leaves the inventory unchanged. |
| Satinv.CheckCollection | satinv.go:75-86 | A collection is accepted iff it was retrieved and its `id` field equals the requested id. Otherwise the error says whether the cache failed, the id is missing, or it does not match. |
| Satinv.GetHostCollection | satinv.go:69-87 | Registers `<base>/katello/api/host_collections/<id>` with file `host_collections_<id>.json`. A fresh, readable cached file is returned unchanged. Otherwise the API is asked: a missing client, a failed fetch or an unwritable file is that error and nothing else changes. A fetched body is written and fresh for the cache period. The result is the ID check of what the cache returned. |
| Satinv.MkInventory | satinv.go:130-161 | An expired inventory (forced refresh, missing file, or past its imported expiry) is rebuilt. It is written, given one hour of freshness, and the table is written. Otherwise the cached file is returned and nothing is written. A failed write or read is the fatal error. |

## Left out

- JSON and YAML are not modelled. An API reply is its bytes, and a host is the three fields the validity check reads. The configuration is given already decoded (`Config.Decoded`), and a collection's `id` field is given by a lookup function.
- The expiry table is stored in parsed form. The indentation that `jsonToFile` applies and the ISO 8601 timestamp text are not modelled. A content file holds exactly the fetched bytes.
- `timestamp`, `timeEpoch`, `jsonFromFile`, `jsonToFile` and logging (`log.Printf`, journald) are not modelled. `log.Fatal` and `log.Fatalf` become an `Err` result, after which nothing else is written.
- The clock, the environment, the home directory, the API's reply and the file system are parameters. The HTTP client in `cacher/satapi` is not part of this model.
- Cacher.Cache.constructor: requires that the expiry table is not unreadable. An existing table that cannot be read stops the process in the source. The cache directory is neither created nor checked.
- Cacher.Cache.HasExpired: the rule for a registered item with no expiry entry is modelled. AddURL always creates that entry, so the rule never fires in a cache that keeps `Valid()`.
- Cacher.Cache.GetURLFromAPI: `readOnly` models only a write that fails on open, which leaves the content file unchanged. `ioutil.WriteFile` truncates the file first, so a write that fails later (disk full) leaves it changed. The same holds for Cacher.Cache.GetURL and Satinv.GetHostCollection.
- Integers are unbounded, so int64 overflow of `now + period` is not modelled.
- `path.Join`'s cleaning of `..`, `.` and repeated slashes is not modelled. Paths.Join only concatenates with one separator.
- Cidrs.ParseSubnet: the textual form `a.b.c.d/n` and `net.ParseCIDR`'s error for malformed text (a nil subnet) are not modelled. The address and the prefix length are given already parsed. IPv6 is not modelled.
- Cidrs.Cidrs.ParseCIDRs: the address is given as a `bv32`. The source's path for address text that does not parse is not modelled; there, a nil address matches no subnet.
- Cidrs.Contains: the mask is characterised bit by bit (Cidrs.Mask, Cidrs.MaskKeepsTopBits). But the combined statement "membership means the top prefixLen bits of network and address agree" is not proved. It went out of resource under the solver limits.
- Satinv.ToLower: only ASCII letters are lowered. Unicode case mapping is not modelled.
- Satinv.HostVerdict: the Satellite timestamp text and `time.Parse` are reduced to "unparsable" or an epoch second. `now` is a whole second, so a check-in exactly `validDays` days old is valid.
- Satinv.HostVerdict: the exclusion test (`SatValidExclude`) and `ValidDays` are used by satinv.go but are not defined in config/config.go. The excluded short names and the number of days are parameters. The same holds for `cfg.Cache.Validity` (satinv.go:137), which is the `cacheValidity` parameter of Satinv.MkInventory.
- Satinv.MkInventory: the document that `refreshInventory` builds (`parseHosts`, `parseHostCollections`, `hgCIDRMembers`) is a parameter. So are the API fetches made while building it (satinv.go:104-107, 209-212). Their expiry entries, the content files they write (hosts.json, host_collections_*.json) and their fatal failures are not modelled. The ensures `fs.files == old(fs.files)[path := rebuilt]` therefore leaves those writes out.
- Satinv.MkInventory: the hard-coded one-hour inventory expiry of `refreshInventory` is used. The configured `validityInventory` is unused in the source as well. Printing the inventory for `--list` is not modelled.
- `getHostByID`, `satTimestamp`, `timeTrack`, `main`, `WriteConfig` and the `multire` package are not modelled.
