/** The inventory builder's decisions (satinv.go): host short names, group
    names, which hosts are "valid", the host collection ID check, and
    whether the inventory is rebuilt or read back from the cache.

    JSON documents are opaque: a host is given by the fields the validity
    check reads, a collection's "id" field by a lookup function, and the
    assembled inventory document by a parameter. */
module Satinv {
  import opened Common
  import opened Paths
  import Cacher

  /** Cache key of the assembled inventory; it is never fetched from the API. */
  const InventoryName := "inventory"

  /** Seconds the rebuilt inventory stays fresh (hard-coded in refreshInventory). */
  const InventoryPeriod := 3600

  const SecondsPerDay := 24 * 60 * 60

  datatype InventoryError =
    | CacheFailure(cause: Cacher.Error)
    | NoCollectionId
    | CollectionIdMismatch
    | InventoryWriteFailed(path: string)

  /** shortName: the part of a host name before its first '.', or the whole
      name when it has none. */
  function ShortName(host: string): (r: string)
    ensures r <= host
    ensures '.' !in r
    ensures |r| < |host| ==> host[|r|] == '.'
  {
    if host == [] || host[0] == '.' then [] else [host[0]] + ShortName(host[1..])
  }

  /** A short name is its own short name. */
  lemma {:induction false} ShortNameIdempotent(host: string)
    ensures ShortName(ShortName(host)) == ShortName(host)
  {
    var s := ShortName(host);
    if s != [] {
      assert s[0] != '.';
      ShortNameIdempotent(host[1..]);
    }
  }

  /** strings.ToLower on one character; only ASCII letters are modelled. */
  function LowerChar(c: char): char
  {
    if 'A' <= c <= 'Z' then (c as int + 32) as char else c
  }

  function ToLower(s: string): (r: string)
    ensures |r| == |s|
    ensures forall i :: 0 <= i < |s| ==> r[i] == LowerChar(s[i])
  {
    if s == [] then [] else [LowerChar(s[0])] + ToLower(s[1..])
  }

  /** strings.ReplaceAll(s, " ", "_") */
  function ReplaceSpaces(s: string): (r: string)
    ensures |r| == |s|
    ensures forall i :: 0 <= i < |s| ==> r[i] == if s[i] == ' ' then '_' else s[i]
  {
    if s == [] then [] else [if s[0] == ' ' then '_' else s[0]] + ReplaceSpaces(s[1..])
  }

  /** What mkInventoryName makes of one character of a collection name. */
  function GroupChar(c: char): char
  {
    if c == ' ' then '_' else LowerChar(c)
  }

  /** The collection name in inventory form: lower case, spaces replaced by
      '_'.  No space and no upper-case ASCII letter remains. */
  function GroupSuffix(s: string): (r: string)
    ensures |r| == |s|
    ensures forall i :: 0 <= i < |s| ==> r[i] == GroupChar(s[i])
    ensures forall i :: 0 <= i < |r| ==> r[i] != ' ' && !('A' <= r[i] <= 'Z')
  {
    ReplaceSpaces(ToLower(s))
  }

  /** mkInventoryName: the inventory prefix followed by the collection name in
      inventory form. */
  function MkInventoryName(prefix: string, s: string): (r: string)
    ensures prefix <= r && |r| == |prefix| + |s|
    ensures r[|prefix|..] == GroupSuffix(s)
  {
    prefix + GroupSuffix(s)
  }

  /** A name that is already in inventory form maps to itself. */
  lemma GroupSuffixStable(s: string)
    ensures GroupSuffix(GroupSuffix(s)) == GroupSuffix(s)
  {
    var n := GroupSuffix(s);
    forall i | 0 <= i < |n| ensures GroupSuffix(n)[i] == n[i] {
      assert n[i] == GroupChar(s[i]);
    }
  }

  /** The last check-in of a host as the Satellite API reports it. */
  datatype Checkin = Unparseable | At(epoch: int)

  /** The fields of a Satellite host record that the validity check reads
      (each may be absent). */
  datatype Host = Host(
    operatingSystemId: Option<int>,
    subscriptionStatus: Option<int>,
    lastCheckin: Option<Checkin>)

  /** The outcome of hgSatValid's checks, in the order they are made. */
  datatype Verdict =
    | Excluded
    | NoValidOS
    | NoSubscription
    | NoCheckin
    | BadCheckinTime
    | CheckinTooOld
    | ValidHost

  /** hgSatValid's decision chain: excluded host, then the operating system,
      then the subscription status, then the last check-in, which must not
      be before now - validDays days. */
  function HostVerdict(h: Host, hostNameShort: string, excluded: set<string>, now: int, validDays: int)
    : (v: Verdict)
    ensures v == ValidHost <==>
              && hostNameShort !in excluded
              && h.operatingSystemId.Some? && h.operatingSystemId.value != 0
              && h.subscriptionStatus == Some(0)
              && h.lastCheckin.Some? && h.lastCheckin.value.At?
              && h.lastCheckin.value.epoch >= now - validDays * SecondsPerDay
    ensures hostNameShort in excluded ==> v == Excluded
  {
    if hostNameShort in excluded then Excluded
    else if h.operatingSystemId.None? || h.operatingSystemId.value == 0 then NoValidOS
    else if h.subscriptionStatus.None? || h.subscriptionStatus.value != 0 then NoSubscription
    else if h.lastCheckin.None? then NoCheckin
    else if h.lastCheckin.value.Unparseable? then BadCheckinTime
    else if h.lastCheckin.value.epoch < now - validDays * SecondsPerDay then CheckinTooOld
    else ValidHost
  }

  /** The inventory being assembled: the host list of each group of the JSON
      document (inv.json), in the order hosts were appended. */
  class Inventory {
    var groups: map<string, seq<string>>

    constructor ()
      ensures groups == map[]
    {
      groups := map[];
    }

    function Members(group: string): seq<string>
      reads this
    {
      if group in groups then groups[group] else []
    }

    /** hgSatValid: appends the host's short name to the valid group when it
        passes every check, and changes nothing otherwise. */
    method HgSatValid(host: Host, satValidGroup: string, hostNameShort: string,
                      excluded: set<string>, now: int, validDays: int)
      modifies this
      ensures HostVerdict(host, hostNameShort, excluded, now, validDays) == ValidHost ==>
                groups == old(groups)[satValidGroup := old(Members(satValidGroup)) + [hostNameShort]]
      ensures HostVerdict(host, hostNameShort, excluded, now, validDays) != ValidHost ==>
                groups == old(groups)
    {
      if hostNameShort in excluded {
        return;
      }
      var osid := host.operatingSystemId;
      if osid.None? || osid.value == 0 {
        return;
      }
      var subStatus := host.subscriptionStatus;
      if subStatus.None? || subStatus.value != 0 {
        return;
      }
      var checkin := host.lastCheckin;
      if checkin.None? {
        return;
      }
      if checkin.value.Unparseable? {
        return;
      }
      var oldestValidTime := now - validDays * SecondsPerDay;
      if checkin.value.epoch < oldestValidTime {
        return;
      }
      groups := groups[satValidGroup := Members(satValidGroup) + [hostNameShort]];
    }
  }

  /** getHostCollection's check of a retrieved collection: it must carry an
      "id" and that id must be the one requested. */
  function CheckCollection(got: Result<Bytes, Cacher.Error>, id: string, idOf: Bytes -> Option<string>)
    : (r: Result<Bytes, InventoryError>)
    ensures r.Ok? <==> got.Ok? && idOf(got.value) == Some(id)
    ensures r.Ok? ==> r.value == got.value
    ensures got.Err? ==> r == Err(CacheFailure(got.error))
    ensures got.Ok? && idOf(got.value).None? ==> r == Err(NoCollectionId)
    ensures got.Ok? && idOf(got.value).Some? && idOf(got.value).value != id ==> r == Err(CollectionIdMismatch)
  {
    if got.Err? then Err(CacheFailure(got.error))
    else if idOf(got.value).None? then Err(NoCollectionId)
    else if idOf(got.value).value != id then Err(CollectionIdMismatch)
    else Ok(got.value)
  }

  function CollectionURL(baseURL: string, id: string): string
  {
    baseURL + "/katello/api/host_collections/" + id
  }

  function CollectionFileName(id: string): string
  {
    "host_collections_" + id + ".json"
  }

  /** Whether the cache goes to the API for item once AddURL has registered
      it with content file path: a forced refresh, a missing or unreadable
      file, or an expiry (0 for a new item) that now is past. */
  ghost predicate StaleAfterAdd(cache: Cacher.Cache, fs: Cacher.FileSystem, item: string, path: string, now: int)
    reads cache, fs
  {
    || cache.cacheRefresh
    || !fs.Exists(path)
    || now > Cacher.Registered(cache.cacheExpiry, item)[item]
    || fs.ReadFile(path).None?
  }

  /** getHostCollection: registers the collection's URL with the cache,
      retrieves it, and accepts it only when its "id" is the requested one.
      got is what the cache returned: the cached file when it is fresh and
      readable, else the API's answer, which is written to the file and
      makes the item fresh for the cache period.  A failure leaves the files
      and the expiries as AddURL left them. */
  method GetHostCollection(cache: Cacher.Cache, fs: Cacher.FileSystem, now: int, baseURL: string,
                           id: string, reply: Cacher.FetchResult, idOf: Bytes -> Option<string>)
    returns (r: Result<Bytes, InventoryError>, got: Result<Bytes, Cacher.Error>)
    requires cache.Valid()
    modifies cache`cacheFiles, cache`cacheExpiry, cache`writeExpiry, fs`files
    ensures cache.Valid()
    ensures cache.cacheFiles == old(cache.cacheFiles)[CollectionURL(baseURL, id) :=
                                  Join(cache.cacheDir, CollectionFileName(id))]
    ensures var url := CollectionURL(baseURL, id);
            var path := Join(cache.cacheDir, CollectionFileName(id));
            var untouched := && fs.files == old(fs.files)
                             && cache.cacheExpiry == Cacher.Registered(old(cache.cacheExpiry), url)
                             && cache.writeExpiry == old(cache.writeExpiry);
            if !old(StaleAfterAdd(cache, fs, url, path, now)) then
              got == Ok(old(fs.files)[path]) && untouched
            else if !cache.apiInit then
              got == Err(Cacher.APINotInitialised) && untouched
            else if reply.FetchError? then
              got == Err(Cacher.FetchFailed(url)) && untouched
            else if !fs.Writable(path) then
              got == Err(Cacher.WriteFailed(path)) && untouched
            else
              && got == Ok(reply.body)
              && fs.files == old(fs.files)[path := reply.body]
              && cache.cacheExpiry == old(cache.cacheExpiry)[url := Cacher.ExpireTime(cache.cachePeriod, now)]
              && cache.writeExpiry
    ensures r == CheckCollection(got, id, idOf)
    ensures r.Ok? ==> idOf(r.value) == Some(id)
  {
    var collectionURL := CollectionURL(baseURL, id);
    ghost var stale := StaleAfterAdd(cache, fs, collectionURL, Join(cache.cacheDir, CollectionFileName(id)), now);
    cache.AddURL(collectionURL, CollectionFileName(id));
    assert cache.NeedsFetch(collectionURL, now, fs) == stale;
    ghost var fetched;
    got, fetched := cache.GetURL(collectionURL, fs, now, reply);
    r := CheckCollection(got, id, idOf);
  }

  /** The inventory's expiry after NewCacher and AddURL in mkInventory. */
  function InventoryExpiry(fs: Cacher.FileSystem, cacheDir: string, now: int): int
    reads fs
  {
    var imported := Cacher.Imported(fs, cacheDir, now);
    if InventoryName in imported then imported[InventoryName] else 0
  }

  function InventoryPath(cacheDir: string): string
  {
    Join(cacheDir, InventoryName + ".json")
  }

  /** Whether mkInventory finds the cached inventory expired. */
  predicate InventoryStale(fs: Cacher.FileSystem, cacheDir: string, now: int, refresh: bool)
    reads fs
  {
    refresh || !fs.Exists(InventoryPath(cacheDir)) || now > InventoryExpiry(fs, cacheDir, now)
  }

  /** mkInventory: opens the cache, registers the inventory item, and rebuilds
      the inventory only when the cache reports it expired; otherwise the
      cached file is returned as it is.  A rebuilt inventory (assembled from
      the API by refreshInventory, given here as rebuilt) is written to its
      file and stays fresh for an hour, and the expiry table is then written
      back.  A failed write or read stops the process, modelled as an
      error after which nothing else is written. */
  method MkInventory(fs: Cacher.FileSystem, cacheDir: string, now: int, cacheValidity: int,
                     refresh: bool, rebuilt: Bytes)
    returns (r: Result<Bytes, InventoryError>)
    requires fs.ReadTable(Cacher.ExpiryPath(cacheDir)) != Err(Cacher.IoError)
    modifies fs`files, fs`tables
    ensures var path := InventoryPath(cacheDir);
            var table := Cacher.ExpiryPath(cacheDir);
            if old(InventoryStale(fs, cacheDir, now, refresh)) then
              if !fs.Writable(path) then
                && r == Err(InventoryWriteFailed(path))
                && fs.files == old(fs.files) && fs.tables == old(fs.tables)
              else
                && r == Ok(rebuilt)
                && fs.files == old(fs.files)[path := rebuilt]
                && (fs.Writable(table) ==>
                      fs.tables == old(fs.tables)[table := Cacher.ExpiryTable(now,
                        old(Cacher.Imported(fs, cacheDir, now))[InventoryName := now + InventoryPeriod])])
                && (!fs.Writable(table) ==> fs.tables == old(fs.tables))
            else
              && (r.Ok? <==> old(fs.ReadFile(path)).Some?)
              && (r.Ok? ==> r.value == old(fs.files)[path])
              && fs.files == old(fs.files) && fs.tables == old(fs.tables)
  {
    ghost var imported := Cacher.Imported(fs, cacheDir, now);
    var cache := new Cacher.Cache(cacheDir, fs, now);
    cache.SetCacheDuration(cacheValidity);
    if refresh {
      cache.SetRefresh();
    }
    cache.AddURL(InventoryName, InventoryName + ".json");
    var expired := cache.HasExpired(InventoryName, now, fs);
    if expired.Err? {
      assert false;
    }
    var json;
    if expired.value {
      // refreshInventory: the assembled document is written to the item's file
      var filename := cache.GetFilename(InventoryName);
      var ok := fs.WriteFile(filename.value, rebuilt);
      if !ok {
        return Err(InventoryWriteFailed(filename.value));
      }
      var _ := cache.UpdateExpiry(InventoryName, InventoryPeriod, now);
      assert cache.cacheExpiry == imported[InventoryName := now + InventoryPeriod];
      json := rebuilt;
    } else {
      var b := cache.GetFile(InventoryName, fs);
      if b.Err? {
        return Err(CacheFailure(b.error));
      }
      json := b.value;
    }
    cache.WriteExpiryFile(fs, now);
    r := Ok(json);
  }
}
