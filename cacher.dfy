/** The disk-backed expiry cache (package cacher).

    A Cache maps each registered item (usually an API URL) to the file that
    holds its content and to the epoch second after which that content is
    stale.  The expiry table survives between runs in the file expire.json
    inside the cache directory.  The clock, the file system and the API
    client are outside the cache: the current time is a parameter, the
    file system is a FileSystem object, and the API client's answer is a
    FetchResult parameter. */
module Cacher {
  import opened Common
  import opened Paths

  /** Name of the persisted expiry table inside the cache directory. */
  const ExpiryFileName := "expire.json"

  /** Entries of the persisted table that expired this many seconds ago or
      earlier are dropped on import (7 days). */
  const Horizon := 7 * 24 * 60 * 60

  datatype Error =
    | NoCacheFile(item: string)   // the item was never registered with AddURL
    | APINotInitialised           // errAPIInit: InitAPI was not called in this run
    | FetchFailed(item: string)   // the API client returned an error
    | WriteFailed(path: string)   // the fetched content could not be written
    | ReadFailed(path: string)    // GetFile could not read the item's file

  /** What the API client answers for one request. */
  datatype FetchResult = Fetched(body: Bytes) | FetchError

  /** The persisted expiry table: when it was written and item -> expiry. */
  datatype ExpiryTable = ExpiryTable(writeTime: int, urls: map<string, int>)

  datatype ReadError = NotExist | IoError

  /** Entries of a persisted table that survive an import at time now. */
  function Prune(urls: map<string, int>, now: int): (m: map<string, int>)
    ensures m.Keys <= urls.Keys
    ensures forall k :: k in m ==> m[k] == urls[k] && m[k] > now - Horizon
    ensures forall k :: k in urls && urls[k] > now - Horizon ==> k in m
  {
    map k | k in urls && urls[k] > now - Horizon :: urls[k]
  }

  /** Epoch second at which an item refreshed at now with the given period expires. */
  function ExpireTime(period: int, now: int): (t: int)
    ensures t - now == period
    ensures period >= 0 ==> t >= now
  {
    now + period
  }

  /** The expiries after AddURL registers item: a known expiry is kept,
      otherwise the item starts expired (0). */
  function Registered(expiry: map<string, int>, item: string): (m: map<string, int>)
    ensures m.Keys == expiry.Keys + {item}
    ensures forall k :: k in expiry ==> m[k] == expiry[k]
    ensures item !in expiry ==> m[item] == 0
  {
    if item in expiry then expiry else expiry[item := 0]
  }

  /** The files the cache sees.  Content files hold bytes; the expiry table
      file is held in its parsed form.  Reads of a path in unreadable fail
      with an I/O error although the path exists; writes to a path in
      readOnly fail.  The empty path names no file: it never exists, and
      reading or writing it fails, whatever the maps hold. */
  class FileSystem {
    var files: map<string, Bytes>
    var tables: map<string, ExpiryTable>
    var unreadable: set<string>
    var readOnly: set<string>

    constructor (files: map<string, Bytes>, tables: map<string, ExpiryTable>,
                 unreadable: set<string>, readOnly: set<string>)
      ensures this.files == files && this.tables == tables
      ensures this.unreadable == unreadable && this.readOnly == readOnly
    {
      this.files := files;
      this.tables := tables;
      this.unreadable := unreadable;
      this.readOnly := readOnly;
    }

    /** os.Stat(p) does not report "does not exist". */
    predicate Exists(p: string)
      reads this
    {
      p != "" && (p in files || p in tables || p in unreadable)
    }

    /** ioutil.WriteFile(p, ...) can open p for writing. */
    predicate Writable(p: string)
      reads this
    {
      p != "" && p !in readOnly
    }

    /** ioutil.ReadFile of a content file. */
    function ReadFile(p: string): (r: Option<Bytes>)
      reads this
      ensures r.Some? <==> p != "" && p in files && p !in unreadable
      ensures r.Some? ==> r.value == files[p]
      ensures r.Some? ==> Exists(p)
    {
      if p != "" && p in files && p !in unreadable then Some(files[p]) else None
    }

    /** Reading the expiry table: a missing file is NotExist, an unreadable one
        an I/O error; a file that holds no table has no "urls" entries. */
    function ReadTable(p: string): (r: Result<map<string, int>, ReadError>)
      reads this
      ensures r == Err(NotExist) <==> !Exists(p)
      ensures r == Err(IoError) <==> p != "" && p in unreadable
      ensures p != "" && p in tables && p !in unreadable ==> r == Ok(tables[p].urls)
    {
      if p == "" then Err(NotExist)
      else if p in unreadable then Err(IoError)
      else if p in tables then Ok(tables[p].urls)
      else if p in files then Ok(map[])
      else Err(NotExist)
    }

    /** ioutil.WriteFile of a content file. */
    method WriteFile(p: string, data: Bytes) returns (ok: bool)
      modifies this`files
      ensures ok <==> Writable(p)
      ensures files == if ok then old(files)[p := data] else old(files)
    {
      ok := Writable(p);
      if ok {
        files := files[p := data];
      }
    }

    /** ioutil.WriteFile of the expiry table. */
    method WriteTable(p: string, t: ExpiryTable) returns (ok: bool)
      modifies this`tables
      ensures ok <==> Writable(p)
      ensures tables == if ok then old(tables)[p := t] else old(tables)
    {
      ok := Writable(p);
      if ok {
        tables := tables[p := t];
      }
    }
  }

  /** Path of the expiry table for a cache directory. */
  function ExpiryPath(cacheDir: string): string
  {
    Join(cacheDir, ExpiryFileName)
  }

  /** The expiry entries a new cache starts with: the recent entries of the
      persisted table, or none when there is no table. */
  function Imported(fs: FileSystem, cacheDir: string, now: int): map<string, int>
    reads fs
  {
    match fs.ReadTable(ExpiryPath(cacheDir))
    case Ok(urls) => Prune(urls, now)
    case Err(_) => map[]
  }

  /** Importing a table at a later time drops every entry an earlier import
      drops, and keeps the same value for every entry it keeps: restarting
      twice is restarting once at the later time. */
  lemma {:induction false} PruneLater(urls: map<string, int>, t1: int, t2: int)
    requires t1 <= t2
    ensures Prune(Prune(urls, t1), t2) == Prune(urls, t2)
  {
    var a, b := Prune(Prune(urls, t1), t2), Prune(urls, t2);
    forall k | k in b ensures k in a && a[k] == b[k] {
      assert urls[k] > t2 - Horizon >= t1 - Horizon;
    }
  }

  /** An entry that is still fresh at the time of import survives it with its
      value, and an entry older than the horizon never does. */
  lemma FreshEntrySurvivesImport(urls: map<string, int>, k: string, now: int)
    ensures k in urls && urls[k] >= now ==> k in Prune(urls, now) && Prune(urls, now)[k] == urls[k]
    ensures k in urls && urls[k] <= now - Horizon ==> k !in Prune(urls, now)
  {
  }

  class Cache {
    const cacheDir: string
    var apiInit: bool
    var cacheExpiry: map<string, int>   // item -> epoch second
    var cacheFiles: map<string, string> // item -> content file
    var cachePeriod: int                // seconds
    var cacheRefresh: bool              // ignore the cache and fetch again
    var writeExpiry: bool               // the expiry table has unwritten changes

    /** Every registered item has an expiry entry: AddURL creates one and
        nothing removes one. */
    ghost predicate Valid()
      reads this
    {
      cacheFiles.Keys <= cacheExpiry.Keys
    }

    /** NewCacher: an empty registry whose expiries are imported from the
        persisted table.  A table that exists but cannot be read stops the
        process (log.Fatalf), so callers must not reach it. */
    constructor (cacheDir: string, fs: FileSystem, now: int)
      requires fs.ReadTable(ExpiryPath(cacheDir)) != Err(IoError)
      ensures Valid()
      ensures this.cacheDir == cacheDir
      ensures cacheFiles == map[]
      ensures cacheExpiry == Imported(fs, cacheDir, now)
      ensures !apiInit && !cacheRefresh && !writeExpiry && cachePeriod == 0
    {
      this.cacheDir := cacheDir;
      apiInit, cacheRefresh, writeExpiry := false, false, false;
      cachePeriod := 0;
      cacheFiles := map[];
      cacheExpiry := map[];
      new;
      ImportExpiry(fs, now);
    }

    /** importExpiry: adds every entry of the persisted table newer than the
        7-day horizon; a missing table adds nothing. */
    method ImportExpiry(fs: FileSystem, now: int)
      requires fs.ReadTable(ExpiryPath(cacheDir)) != Err(IoError)
      modifies this`cacheExpiry
      ensures cacheExpiry == old(cacheExpiry) + Imported(fs, cacheDir, now)
    {
      var j := fs.ReadTable(ExpiryPath(cacheDir));
      if j.Err? {
        return;
      }
      var urls := j.value;
      var ageLimit := now - Horizon;
      var pending := urls.Keys;
      while pending != {}
        invariant pending <= urls.Keys
        invariant forall k :: k in cacheExpiry <==>
                    k in old(cacheExpiry) || (k in urls && k !in pending && urls[k] > ageLimit)
        invariant forall k :: k in cacheExpiry ==>
                    cacheExpiry[k] == if k in urls && k !in pending && urls[k] > ageLimit then urls[k]
                                      else old(cacheExpiry)[k]
        decreases pending
      {
        var k :| k in pending;
        if urls[k] > ageLimit {
          cacheExpiry := cacheExpiry[k := urls[k]];
        }
        pending := pending - {k};
      }
      assert cacheExpiry == old(cacheExpiry) + Prune(urls, now);
    }

    /** exportExpiry: writes the whole expiry map, stamped with the current time. */
    method ExportExpiry(fs: FileSystem, now: int) returns (ok: bool)
      modifies fs`tables
      ensures ok <==> fs.Writable(ExpiryPath(cacheDir))
      ensures fs.tables == if ok then old(fs.tables)[ExpiryPath(cacheDir) := ExpiryTable(now, cacheExpiry)]
                           else old(fs.tables)
    {
      ok := fs.WriteTable(ExpiryPath(cacheDir), ExpiryTable(now, cacheExpiry));
    }

    /** WriteExpiryFile: exports the table only when an expiry has changed;
        a failed write is ignored. */
    method WriteExpiryFile(fs: FileSystem, now: int)
      modifies fs`tables
      ensures !writeExpiry ==> fs.tables == old(fs.tables)
      ensures writeExpiry && fs.Writable(ExpiryPath(cacheDir)) ==>
                fs.tables == old(fs.tables)[ExpiryPath(cacheDir) := ExpiryTable(now, cacheExpiry)]
      ensures !fs.Writable(ExpiryPath(cacheDir)) ==> fs.tables == old(fs.tables)
    {
      if writeExpiry {
        var _ := ExportExpiry(fs, now);
      }
    }

    /** GetFilename: the content file of a registered item; an unregistered
        item stops the process (log.Fatalf), modelled as an error. */
    method GetFilename(item: string) returns (r: Result<string, Error>)
      requires Valid()
      ensures r.Ok? <==> item in cacheFiles
      ensures r.Ok? ==> r.value == cacheFiles[item] && item in cacheExpiry
      ensures r.Err? ==> r.error == NoCacheFile(item)
    {
      if item in cacheFiles {
        r := Ok(cacheFiles[item]);
      } else {
        r := Err(NoCacheFile(item));
      }
    }

    /** InitAPI: the API client is ready (credentials are not modelled). */
    method InitAPI()
      modifies this`apiInit
      ensures apiInit
    {
      apiInit := true;
    }

    /** SetRefresh: from now on every registered item reports expired. */
    method SetRefresh()
      modifies this`cacheRefresh
      ensures cacheRefresh
    {
      cacheRefresh := true;
    }

    /** SetCacheDuration: the validity period given to items refreshed from the API. */
    method SetCacheDuration(sec: int)
      modifies this`cachePeriod
      ensures cachePeriod == sec
    {
      cachePeriod := sec;
    }

    /** HasExpired: whether an item must be fetched again.  The rules are
        tried in order: unregistered item (an error), forced refresh, missing
        content file, missing expiry entry, and finally now > expiry. */
    function HasExpired(item: string, now: int, fs: FileSystem): (r: Result<bool, Error>)
      reads this, fs
      ensures r.Err? <==> item !in cacheFiles
      ensures r.Err? ==> r.error == NoCacheFile(item)
      ensures r.Ok? ==>
                (r.value <==> (cacheRefresh || !fs.Exists(cacheFiles[item]) || item !in cacheExpiry
                               || now > cacheExpiry[item]))
      ensures r.Ok? && Valid() ==>
                (r.value <==> (cacheRefresh || !fs.Exists(cacheFiles[item]) || now > cacheExpiry[item]))
    {
      if item !in cacheFiles then Err(NoCacheFile(item))
      else if cacheRefresh then Ok(true)
      else if !fs.Exists(cacheFiles[item]) then Ok(true)
      else if item !in cacheExpiry then Ok(true)
      else Ok(now > cacheExpiry[item])
    }

    /** Once an item has expired it stays expired as time passes, as long as
        the cache and the files do not change. */
    lemma ExpiredStaysExpired(item: string, now: int, later: int, fs: FileSystem)
      requires now <= later
      requires HasExpired(item, now, fs) == Ok(true)
      ensures HasExpired(item, later, fs) == Ok(true)
    {
    }

    /** Forced refresh and a missing file are never masked by an expiry in
        the future; the zero expiry of a new registration is stale at every
        positive time. */
    lemma ExpiryOrder(item: string, now: int, fs: FileSystem)
      requires item in cacheFiles
      ensures cacheRefresh ==> HasExpired(item, now, fs) == Ok(true)
      ensures !fs.Exists(cacheFiles[item]) ==> HasExpired(item, now, fs) == Ok(true)
      ensures item in cacheExpiry && cacheExpiry[item] == 0 && now > 0 ==> HasExpired(item, now, fs) == Ok(true)
      ensures !cacheRefresh && fs.Exists(cacheFiles[item]) && item in cacheExpiry ==>
                HasExpired(item, now, fs) == Ok(now > cacheExpiry[item])
    {
    }

    /** AddURL: the item's content file is fileName inside the cache
        directory; an expiry already known (imported from the persisted table
        or set earlier) is kept, otherwise the item starts expired (0). */
    method AddURL(item: string, fileName: string)
      requires Valid()
      modifies this`cacheFiles, this`cacheExpiry
      ensures Valid()
      ensures cacheFiles == old(cacheFiles)[item := Join(cacheDir, fileName)]
      ensures cacheExpiry == Registered(old(cacheExpiry), item)
    {
      cacheFiles := cacheFiles[item := Join(cacheDir, fileName)];
      if item !in cacheExpiry {
        cacheExpiry := cacheExpiry[item := 0];
      }
    }

    /** UpdateExpiry: the item expires period seconds after now and the table
        is marked for writing; no other item and no content file changes. */
    method UpdateExpiry(item: string, period: int, now: int) returns (newExpire: int)
      requires Valid()
      modifies this`cacheExpiry, this`writeExpiry
      ensures Valid()
      ensures newExpire == ExpireTime(period, now)
      ensures cacheExpiry == old(cacheExpiry)[item := newExpire]
      ensures writeExpiry
    {
      newExpire := ExpireTime(period, now);
      cacheExpiry := cacheExpiry[item := newExpire];
      writeExpiry := true;
    }

    /** getURLFromAPI: fetches a registered item, writes it to its content
        file and advances its expiry by the cache period.  Without an API
        client, or when the fetch or the write fails, nothing changes.
        fetched tells whether the API client was called. */
    method GetURLFromAPI(item: string, fs: FileSystem, now: int, reply: FetchResult)
      returns (r: Result<Bytes, Error>, ghost fetched: bool)
      requires Valid() && item in cacheFiles
      modifies this`cacheExpiry, this`writeExpiry, fs`files
      ensures Valid()
      ensures fetched <==> old(apiInit)
      ensures !apiInit ==> r == Err(APINotInitialised) && unchanged(this, fs)
      ensures apiInit && reply.FetchError? ==> r == Err(FetchFailed(item)) && unchanged(this, fs)
      ensures apiInit && reply.Fetched? && !fs.Writable(cacheFiles[item]) ==>
                r == Err(WriteFailed(cacheFiles[item])) && unchanged(this, fs)
      ensures apiInit && reply.Fetched? && fs.Writable(cacheFiles[item]) ==>
                && r == Ok(reply.body)
                && fs.files == old(fs.files)[cacheFiles[item] := reply.body]
                && cacheExpiry == old(cacheExpiry)[item := ExpireTime(cachePeriod, now)]
                && writeExpiry
    {
      if !apiInit {
        r, fetched := Err(APINotInitialised), false;
        return;
      }
      fetched := true;
      if reply.FetchError? {
        r := Err(FetchFailed(item));
        return;
      }
      var path := cacheFiles[item];
      var ok := fs.WriteFile(path, reply.body);
      if !ok {
        r := Err(WriteFailed(path));
        return;
      }
      var _ := UpdateExpiry(item, cachePeriod, now);
      r := Ok(reply.body);
    }

    /** Whether GetURL has to go to the API for a registered item: it has
        expired, or its content file cannot be read. */
    ghost predicate NeedsFetch(item: string, now: int, fs: FileSystem)
      reads this, fs
      requires item in cacheFiles
    {
      HasExpired(item, now, fs) == Ok(true) || fs.ReadFile(cacheFiles[item]).None?
    }

    /** GetURL: the content of an item.  A fresh, readable file is returned
        without calling the API; otherwise the item is fetched as in
        GetURLFromAPI.  An unregistered item is an error and changes nothing.
        After a successful fetch the item is fresh at the same instant,
        unless a refresh is forced or the period is negative. */
    method GetURL(item: string, fs: FileSystem, now: int, reply: FetchResult)
      returns (r: Result<Bytes, Error>, ghost fetched: bool)
      requires Valid()
      modifies this`cacheExpiry, this`writeExpiry, fs`files
      ensures Valid()
      ensures item !in cacheFiles ==> r == Err(NoCacheFile(item)) && !fetched && unchanged(this, fs)
      ensures item in cacheFiles && !old(NeedsFetch(item, now, fs)) ==>
                && r == Ok(old(fs.files[cacheFiles[item]]))
                && !fetched && unchanged(this, fs)
      ensures item in cacheFiles && old(NeedsFetch(item, now, fs)) ==>
                && (fetched <==> apiInit)
                && (!apiInit ==> r == Err(APINotInitialised) && unchanged(this, fs))
                && (apiInit && reply.FetchError? ==> r == Err(FetchFailed(item)) && unchanged(this, fs))
                && (apiInit && reply.Fetched? && !fs.Writable(cacheFiles[item]) ==>
                      r == Err(WriteFailed(cacheFiles[item])) && unchanged(this, fs))
                && (apiInit && reply.Fetched? && fs.Writable(cacheFiles[item]) ==>
                      && r == Ok(reply.body)
                      && fs.files == old(fs.files)[cacheFiles[item] := reply.body]
                      && cacheExpiry == old(cacheExpiry)[item := ExpireTime(cachePeriod, now)]
                      && writeExpiry)
      ensures fetched && r.Ok? && !cacheRefresh && cachePeriod >= 0 ==> HasExpired(item, now, fs) == Ok(false)
    {
      var refresh := HasExpired(item, now, fs);
      if refresh.Err? {
        r, fetched := Err(refresh.error), false;
        return;
      }
      if refresh.value {
        r, fetched := GetURLFromAPI(item, fs, now, reply);
        return;
      }
      var content := fs.ReadFile(cacheFiles[item]);
      if content.None? {
        r, fetched := GetURLFromAPI(item, fs, now, reply);
      } else {
        r, fetched := Ok(content.value), false;
      }
    }

    /** GetFile: the bytes of an item's content file.  A failed read stops the
        process (log.Fatal), modelled as an error; an unregistered item reads
        the empty path (Go's zero value), which fails. */
    method GetFile(item: string, fs: FileSystem) returns (r: Result<Bytes, Error>)
      ensures var path := if item in cacheFiles then cacheFiles[item] else "";
              && (r.Ok? <==> fs.ReadFile(path).Some?)
              && (r.Ok? ==> r.value == fs.files[path])
              && (r.Err? ==> r.error == ReadFailed(path))
    ensures item !in cacheFiles ==> r == Err(ReadFailed(""))
    {
      var path := if item in cacheFiles then cacheFiles[item] else "";
      var b := fs.ReadFile(path);
      if b.None? {
        r := Err(ReadFailed(path));
      } else {
        r := Ok(b.value);
      }
    }

    /** A batch run that changed an expiry ends with WriteExpiryFile; the next
        run starts with NewCacher on the same directory.  Every entry still
        within the horizon at the restart comes back with the same value, and
        nothing else comes back. */
    method Restart(fs: FileSystem, now: int, later: int) returns (next: Cache)
      requires writeExpiry
      requires fs.Writable(ExpiryPath(cacheDir)) && ExpiryPath(cacheDir) !in fs.unreadable
      modifies fs`tables
      ensures fresh(next) && next.Valid() && next.cacheDir == cacheDir
      ensures next.cacheFiles == map[]
      ensures next.cacheExpiry == Prune(cacheExpiry, later)
    {
      WriteExpiryFile(fs, now);
      next := new Cache(cacheDir, fs, later);
    }
  }
}
