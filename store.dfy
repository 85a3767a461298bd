/**
 * The companion app-store server (cmd/store/main.go): it reads each app's
 * metadata from a source directory, packages every app into
 * <deploy>/<xrn>.zip, serves the catalog with download URLs pointing back at
 * itself, serves the packages, and rebuilds everything when something under
 * the source directory is newer than its last load.
 */
module StoreServer {
  import opened Wrappers
  import opened Text

  /** One catalog entry as the store keeps it; `appdir` is never sent to clients. */
  datatype StoreSku = StoreSku(
    xrn: string,
    name: string,
    description: string,
    version: string,
    date: string,
    author: string,
    context: string,
    download: string,
    appdir: string)

  // ---------------------------------------------------------------------------
  // Request paths (mkContexts) and dispatch

  /** mkContexts: one leading and one trailing "/" dropped, then split on "/". */
  function MkContexts(path: string): (parts: seq<string>)
    ensures |parts| >= 1
    ensures forall i :: 0 <= i < |parts| ==> '/' !in parts[i]
    ensures Join(parts, '/') == TrimSuffix(TrimPrefix(path, "/"), "/")
  {
    Split(TrimSuffix(TrimPrefix(path, "/"), "/"), '/')
  }

  /** The root gives a single empty context, and a trailing "/" does not add one. */
  lemma MkContextsExamples()
    ensures MkContexts("/") == [""]
    ensures MkContexts("/catalog") == ["catalog"]
    ensures MkContexts("/catalog/") == ["catalog"]
  {
    assert TrimSuffix(TrimPrefix("/", "/"), "/") == "";
    SplitWithoutSep("", '/');
    assert '/' !in "catalog";
    SplitWithoutSep("catalog", '/');
    assert TrimSuffix(TrimPrefix("/catalog", "/"), "/") == "catalog";
    assert TrimPrefix("/catalog/", "/") == "catalog/";
    assert TrimSuffix("catalog/", "/") == "catalog";
  }

  /** The segments of "/" + a joined list of clean, non-empty segments are those segments. */
  lemma MkContextsOfSegments(parts: seq<string>)
    requires |parts| >= 1
    requires forall i :: 0 <= i < |parts| ==> '/' !in parts[i]
    requires parts[|parts| - 1] != ""
    ensures MkContexts("/" + Join(parts, '/')) == parts
  {
    var j := Join(parts, '/');
    assert ("/" + j)[..1] == "/";
    assert TrimPrefix("/" + j, "/") == j;
    JoinLastChar(parts, '/');
    var last := parts[|parts| - 1];
    assert last[|last| - 1] in last;
    assert j[|j| - 1..] == [j[|j| - 1]];
    assert TrimSuffix(j, "/") == j;
    SplitJoin(parts, '/');
  }

  /** A join ends with the last character of its last, non-empty part. */
  lemma {:induction false} JoinLastChar(parts: seq<string>, sep: char)
    requires |parts| >= 1 && parts[|parts| - 1] != ""
    ensures |Join(parts, sep)| >= 1
    ensures Join(parts, sep)[|Join(parts, sep)| - 1] == parts[|parts| - 1][|parts[|parts| - 1]| - 1]
    decreases |parts|
  {
    if |parts| > 1 {
      JoinLastChar(parts[1..], sep);
      assert Join(parts, sep) == parts[0] + [sep] + Join(parts[1..], sep);
    }
  }

  /** The download URL the catalog hands out for an XRN. */
  function DownloadUrl(host: string, xrn: string): string
  {
    "http://" + host + "/download/" + xrn + ".zip"
  }

  /** Where createDownload writes an SKU's package, before it is made absolute. */
  function ArchiveTarget(deployDir: string, xrn: string): string
  {
    PathJoin(deployDir, xrn + ".zip")
  }

  /** The store's replies. */
  datatype StoreReply =
    | CatalogJson(skus: seq<StoreSku>)   // status 200, the SKUs as JSON
    | FileContents(contents: string)     // status 200, the package bytes
    | ServerError(reason: string)        // status 500
    | NotFound                           // status 404, "<h1>Not found.</h1>"
    | Panic                              // a missing path segment indexed

  datatype Route = CatalogRoute | DownloadRoute(file: string) | MissingSegment | OtherRoute

  /** The switch on the first context; "download" reads the second one, which may not exist. */
  function RouteOf(parts: seq<string>): (r: Route)
    requires |parts| >= 1
    ensures r == CatalogRoute <==> parts[0] == "catalog"
    ensures r.DownloadRoute? <==> parts[0] == "download" && |parts| >= 2
    ensures r.DownloadRoute? ==> r.file == parts[1]
    ensures r == MissingSegment <==> parts[0] == "download" && |parts| == 1
  {
    if parts[0] == "catalog" then CatalogRoute
    else if parts[0] == "download" then (if |parts| >= 2 then DownloadRoute(parts[1]) else MissingSegment)
    else OtherRoute
  }

  /**
   * A download URL the catalog hands out names, on the way back in, exactly
   * the package createDownload writes for that XRN.
   */
  lemma DownloadRoundTrip(deployDir: string, xrn: string)
    requires '/' !in xrn
    ensures RouteOf(MkContexts("/download/" + xrn + ".zip")) == DownloadRoute(xrn + ".zip")
    ensures PathJoin(deployDir, RouteOf(MkContexts("/download/" + xrn + ".zip")).file) == ArchiveTarget(deployDir, xrn)
  {
    var name := xrn + ".zip";
    assert '/' !in name by {
      assert forall i :: 0 <= i < |name| ==> name[i] == (if i < |xrn| then xrn[i] else ".zip"[i - |xrn|]);
    }
    assert Join(["download", name], '/') == "download" + ['/'] + name;
    assert "/download/" + xrn + ".zip" == "/" + Join(["download", name], '/');
    MkContextsOfSegments(["download", name]);
  }

  // ---------------------------------------------------------------------------
  // Loading the sources (loadApps)

  /** What reading and decoding an entry's metadata.js gave. */
  datatype SourceMetadata = Unreadable | Unparsable | Parsed(sku: StoreSku)

  /** One entry of the source directory. */
  datatype SourceEntry = SourceEntry(name: string, metadata: SourceMetadata)

  /** The SKU an entry contributes: its metadata with the context and app directory set from its name. */
  function Stamped(sourceDir: string, e: SourceEntry): StoreSku
    requires e.metadata.Parsed?
  {
    e.metadata.sku.(context := e.name, appdir := PathJoin(sourceDir, e.name))
  }

  /** loadApps' loop: entries whose metadata cannot be read or decoded are skipped. */
  function Loaded(sourceDir: string, entries: seq<SourceEntry>): seq<StoreSku>
    decreases |entries|
  {
    if entries == [] then []
    else
      var last := entries[|entries| - 1];
      Loaded(sourceDir, entries[..|entries| - 1]) + (if last.metadata.Parsed? then [Stamped(sourceDir, last)] else [])
  }

  /** Loading is entry by entry: a listing's SKUs are its parts' SKUs in order. */
  lemma {:induction false} LoadedAppend(sourceDir: string, a: seq<SourceEntry>, b: seq<SourceEntry>)
    ensures Loaded(sourceDir, a + b) == Loaded(sourceDir, a) + Loaded(sourceDir, b)
    decreases |b|
  {
    if b == [] {
      assert a + b == a;
    } else {
      assert (a + b)[..|a + b| - 1] == a + b[..|b| - 1];
      LoadedAppend(sourceDir, a, b[..|b| - 1]);
    }
  }

  /** A broken entry anywhere in the listing is skipped without affecting the others. */
  lemma BrokenEntrySkipped(sourceDir: string, a: seq<SourceEntry>, e: SourceEntry, b: seq<SourceEntry>)
    requires !e.metadata.Parsed?
    ensures Loaded(sourceDir, a + [e] + b) == Loaded(sourceDir, a + b)
  {
    LoadedAppend(sourceDir, a + [e], b);
    LoadedAppend(sourceDir, a, [e]);
    LoadedAppend(sourceDir, a, b);
    assert [e][..0] == [];
  }

  /** A single entry contributes its stamped SKU when its metadata parses, and nothing otherwise. */
  lemma LoadedOfOne(sourceDir: string, e: SourceEntry)
    ensures Loaded(sourceDir, [e]) == if e.metadata.Parsed? then [Stamped(sourceDir, e)] else []
  {
    assert [e][..0] == [];
  }

  /**
   * Each loaded SKU comes from a readable entry, named after its directory,
   * and every readable entry is loaded.
   */
  lemma {:induction false} LoadedFromEntries(sourceDir: string, entries: seq<SourceEntry>)
    ensures |Loaded(sourceDir, entries)| <= |entries|
    ensures forall s :: s in Loaded(sourceDir, entries) ==>
              exists e :: e in entries && e.metadata.Parsed? && s == Stamped(sourceDir, e)
    ensures forall e :: e in entries && e.metadata.Parsed? ==> Stamped(sourceDir, e) in Loaded(sourceDir, entries)
    decreases |entries|
  {
    if entries != [] {
      var init, last := entries[..|entries| - 1], entries[|entries| - 1];
      LoadedFromEntries(sourceDir, init);
      assert forall e :: e in init ==> e in entries;
      assert last in entries;
      assert entries == init + [last];
      forall e | e in entries && e.metadata.Parsed?
        ensures Stamped(sourceDir, e) in Loaded(sourceDir, entries)
      {
        if e != last {
          assert e in init;
        }
      }
    }
  }

  // ---------------------------------------------------------------------------
  // Packaging (createDownload, createDownloads)

  /** One zipit call: an app directory packed into a file. */
  datatype Package = Package(source: string, target: string)

  /** The outcome of zipit: `None` on success. */
  type Zipper = Package -> Option<string>

  datatype PackOutcome = PackOutcome(error: Option<string>, attempted: seq<Package>)

  /** createDownloads: SKUs packaged in order; the first error ends the run and is returned. */
  function PackageAll(skus: seq<StoreSku>, deployDir: string, abs: string -> Result<string>, zip: Zipper): PackOutcome
    decreases |skus|
  {
    if skus == [] then PackOutcome(None, [])
    else
      var dest := abs(ArchiveTarget(deployDir, skus[0].xrn));
      if dest.Err? then PackOutcome(Some(dest.error), [])
      else
        var p := Package(skus[0].appdir, dest.value);
        match zip(p)
        case Some(e) => PackOutcome(Some(e), [p])
        case None =>
          var rest := PackageAll(skus[1..], deployDir, abs, zip);
          PackOutcome(rest.error, [p] + rest.attempted)
  }

  /**
   * Packaging goes in SKU order, one zipit call per SKU into its absolute
   * archive target; every call but the last attempted one succeeded, and the
   * run reports no error exactly when every SKU was packaged successfully.
   */
  lemma {:induction false} PackageAllMeaning(skus: seq<StoreSku>, deployDir: string, abs: string -> Result<string>, zip: Zipper)
    ensures var r := PackageAll(skus, deployDir, abs, zip);
      && |r.attempted| <= |skus|
      && (forall i :: 0 <= i < |r.attempted| ==>
            abs(ArchiveTarget(deployDir, skus[i].xrn)).Ok? &&
            r.attempted[i] == Package(skus[i].appdir, abs(ArchiveTarget(deployDir, skus[i].xrn)).value))
      && (forall i :: 0 <= i < |r.attempted| - 1 ==> zip(r.attempted[i]).None?)
      && (r.error.None? <==> |r.attempted| == |skus| && forall i :: 0 <= i < |r.attempted| ==> zip(r.attempted[i]).None?)
    decreases |skus|
  {
    if skus != [] {
      PackageAllMeaning(skus[1..], deployDir, abs, zip);
    }
  }

  /**
   * The run stops only at a failure, and the error it reports is that
   * failure's own: the last zipit call attempted when that call failed,
   * otherwise resolving the next SKU's archive target.
   */
  lemma {:induction false} PackageAllStops(skus: seq<StoreSku>, deployDir: string, abs: string -> Result<string>, zip: Zipper)
    ensures var r := PackageAll(skus, deployDir, abs, zip);
      && (|r.attempted| < |skus| ==> r.error.Some?)
      && (|r.attempted| > 0 && zip(r.attempted[|r.attempted| - 1]).Some? ==>
            r.error == zip(r.attempted[|r.attempted| - 1]))
      && (r.error.Some? && (|r.attempted| == 0 || zip(r.attempted[|r.attempted| - 1]).None?) ==>
            |r.attempted| < |skus| && abs(ArchiveTarget(deployDir, skus[|r.attempted|].xrn)) == Err(r.error.value))
    decreases |skus|
  {
    if skus != [] {
      var dest := abs(ArchiveTarget(deployDir, skus[0].xrn));
      if dest.Ok? && zip(Package(skus[0].appdir, dest.value)).None? {
        var p := Package(skus[0].appdir, dest.value);
        var rest := PackageAll(skus[1..], deployDir, abs, zip);
        PackageAllStops(skus[1..], deployDir, abs, zip);
        var r := PackageAll(skus, deployDir, abs, zip);
        assert r == PackOutcome(rest.error, [p] + rest.attempted);
        if |rest.attempted| > 0 {
          assert r.attempted[|r.attempted| - 1] == rest.attempted[|rest.attempted| - 1];
        }
        if |rest.attempted| < |skus| - 1 {
          assert skus[|r.attempted|] == skus[1..][|rest.attempted|];
        }
      }
    }
  }

  // ---------------------------------------------------------------------------
  // Watching the sources (monitorApps)

  /** One step of filepath.Walk: a file's modification time, or an error that ends the walk. */
  datatype Visit = Visited(modTime: nat) | WalkError(message: string)

  /** The newest modification time among the visits; Go's zero time when there is none. */
  function Newest(visits: seq<Visit>): nat
    decreases |visits|
  {
    if visits == [] then 0
    else
      var t := Newest(visits[..|visits| - 1]);
      var v := visits[|visits| - 1];
      if v.Visited? && v.modTime > t then v.modTime else t
  }

  /** Newest is an upper bound of every visited time, and is one of them unless it is the zero time. */
  lemma {:induction false} NewestIsMaximum(visits: seq<Visit>)
    ensures forall i :: 0 <= i < |visits| && visits[i].Visited? ==> visits[i].modTime <= Newest(visits)
    ensures Newest(visits) == 0 || exists i :: 0 <= i < |visits| && visits[i] == Visited(Newest(visits))
    decreases |visits|
  {
    if visits != [] {
      var init := visits[..|visits| - 1];
      NewestIsMaximum(init);
      assert forall i :: 0 <= i < |init| ==> visits[i] == init[i];
    }
  }

  /** The message of the walk's first error, or `None` when every visit succeeded. */
  function FirstWalkError(visits: seq<Visit>): (r: Option<string>)
    ensures r.None? <==> forall i :: 0 <= i < |visits| ==> visits[i].Visited?
    ensures forall i :: 0 <= i < |visits| && visits[i].WalkError? && (forall k :: 0 <= k < i ==> visits[k].Visited?) ==>
              r == Some(visits[i].message)
    decreases |visits|
  {
    if visits == [] then None
    else
      var init, last := visits[..|visits| - 1], visits[|visits| - 1];
      assert forall i :: 0 <= i < |init| ==> visits[i] == init[i];
      var e := FirstWalkError(init);
      if e.Some? then e
      else if last.WalkError? then Some(last.message)
      else None
  }

  /** recent: the walk's running maximum, stopped by the first error. */
  method Recent(visits: seq<Visit>) returns (t: nat, err: Option<string>)
    ensures err == FirstWalkError(visits)
    ensures err.None? ==> (forall i :: 0 <= i < |visits| ==> visits[i].Visited?) && t == Newest(visits)
    ensures err.Some? ==> exists i :: 0 <= i < |visits| && visits[i] == WalkError(err.value) &&
                                      (forall k :: 0 <= k < i ==> visits[k].Visited?) && t == Newest(visits[..i])
  {
    t := 0;
    for i := 0 to |visits|
      invariant forall k :: 0 <= k < i ==> visits[k].Visited?
      invariant t == Newest(visits[..i])
    {
      assert visits[..i + 1][..i] == visits[..i];
      if visits[i].WalkError? {
        return t, Some(visits[i].message);
      }
      if visits[i].modTime > t {
        t := visits[i].modTime;
      }
    }
    assert visits[..|visits|] == visits;
    err := None;
  }

  /** A pass rebuilds when the walk ends cleanly and finds something strictly newer than the last load. */
  predicate Stale(visits: seq<Visit>, timestamp: nat)
  {
    (forall i :: 0 <= i < |visits| ==> visits[i].Visited?) && Newest(visits) > timestamp
  }

  /** After a load stamped no earlier than every file, the same tree does not trigger again. */
  lemma LoadSettlesTree(visits: seq<Visit>, now: nat)
    requires forall i :: 0 <= i < |visits| && visits[i].Visited? ==> visits[i].modTime <= now
    ensures !Stale(visits, now)
  {
    NewestIsMaximum(visits);
  }

  // ---------------------------------------------------------------------------
  // The store

  class StoreSystem {
    const sourceDir: string
    const deployDir: string
    var skus: seq<StoreSku>
    /** When the SKUs were last loaded; Go's zero time before the first load. */
    var timestamp: nat

    /** newSystem. */
    constructor (source: string, target: string)
      ensures sourceDir == source && deployDir == target
      ensures skus == [] && timestamp == 0
    {
      sourceDir, deployDir := source, target;
      skus, timestamp := [], 0;
    }

    /**
     * loadApps: with the source directory made absolute, every entry whose
     * metadata reads and decodes becomes an SKU; the list and the timestamp
     * are replaced together. The listing error is ignored (an unreadable
     * directory lists nothing).
     */
    method LoadApps(abs: string -> Result<string>, sources: seq<SourceEntry>, now: nat) returns (err: Option<string>)
      modifies this
      ensures abs(sourceDir).Err? ==> err == Some(abs(sourceDir).error) && skus == old(skus) && timestamp == old(timestamp)
      ensures abs(sourceDir).Ok? ==> err == None && skus == Loaded(abs(sourceDir).value, sources) && timestamp == now
    {
      var dir := abs(sourceDir);
      if dir.Err? {
        return Some(dir.error);
      }
      var loaded: seq<StoreSku> := [];
      for i := 0 to |sources|
        invariant loaded == Loaded(dir.value, sources[..i])
      {
        assert sources[..i + 1][..i] == sources[..i];
        var v := sources[i];
        if v.metadata.Unreadable? {
          continue;
        }
        if v.metadata.Unparsable? {
          continue;
        }
        var sku := v.metadata.sku.(context := v.name, appdir := PathJoin(dir.value, v.name));
        loaded := loaded + [sku];
      }
      assert sources[..|sources|] == sources;
      timestamp := now;
      skus := loaded;
      err := None;
    }

    /** createDownloads over the current SKUs; `attempted` lists the zipit calls made. */
    method CreateDownloads(abs: string -> Result<string>, zip: Zipper) returns (err: Option<string>, attempted: seq<Package>)
      ensures PackOutcome(err, attempted) == PackageAll(skus, deployDir, abs, zip)
    {
      attempted := [];
      for i := 0 to |skus|
        invariant PackageAll(skus, deployDir, abs, zip) ==
                  var rest := PackageAll(skus[i..], deployDir, abs, zip);
                  PackOutcome(rest.error, attempted + rest.attempted)
      {
        assert skus[i..][1..] == skus[i + 1..];
        var dest := abs(ArchiveTarget(deployDir, skus[i].xrn));
        if dest.Err? {
          return Some(dest.error), attempted;
        }
        var p := Package(skus[i].appdir, dest.value);
        attempted := attempted + [p];
        var e := zip(p);
        if e.Some? {
          return e, attempted;
        }
      }
      err := None;
    }

    /** The catalog branch's loop: every SKU's download URL points at this host; nothing else changes. */
    method StampDownloads(host: string)
      modifies this
      ensures |skus| == |old(skus)|
      ensures forall i :: 0 <= i < |skus| ==> skus[i] == old(skus[i]).(download := DownloadUrl(host, old(skus[i]).xrn))
      ensures timestamp == old(timestamp)
    {
      for i := 0 to |skus|
        invariant |skus| == |old(skus)|
        invariant forall k :: 0 <= k < i ==> skus[k] == old(skus[k]).(download := DownloadUrl(host, old(skus[k]).xrn))
        invariant forall k :: i <= k < |skus| ==> skus[k] == old(skus[k])
        invariant timestamp == old(timestamp)
      {
        skus := skus[i := skus[i].(download := DownloadUrl(host, skus[i].xrn))];
      }
    }

    /**
     * system.ServeHTTP: "catalog" stamps the download URLs and answers with
     * the SKUs, "download" answers with the named package (or its open
     * error), anything else is 404.
     */
    method Serve(path: string, host: string, open: string -> Result<string>) returns (reply: StoreReply)
      modifies this
      ensures var route := RouteOf(MkContexts(path));
        && (route == CatalogRoute ==>
              (reply == CatalogJson(skus) && |skus| == |old(skus)| &&
               forall i :: 0 <= i < |skus| ==> skus[i] == old(skus[i]).(download := DownloadUrl(host, old(skus[i]).xrn))))
        && (route != CatalogRoute ==> skus == old(skus))
        && (route.DownloadRoute? ==>
              var file := open(PathJoin(deployDir, route.file));
              reply == if file.Ok? then FileContents(file.value) else ServerError(file.error))
        && (route == MissingSegment ==> reply == Panic)
        && (route == OtherRoute ==> reply == NotFound)
      ensures timestamp == old(timestamp)
    {
      var context := MkContexts(path);
      if context[0] == "catalog" {
        StampDownloads(host);
        return CatalogJson(skus);
      } else if context[0] == "download" {
        if |context| < 2 {
          return Panic;
        }
        var f := open(PathJoin(deployDir, context[1]));
        if f.Err? {
          return ServerError(f.error);
        }
        return FileContents(f.value);
      }
      reply := NotFound;
    }

    /**
     * One monitorApps pass: the source tree's newest time is computed; a walk
     * error or filepath.Abs error ends the pass; a strictly newer time reloads
     * and repackages (their errors are ignored), anything else changes nothing.
     */
    method Pass(abs: string -> Result<string>, walk: seq<Visit>, sources: seq<SourceEntry>, now: nat, zip: Zipper)
      returns (err: Option<string>, rebuilt: bool, attempted: seq<Package>)
      modifies this
      ensures rebuilt <==> abs(sourceDir).Ok? && Stale(walk, old(timestamp))
      ensures rebuilt ==> err == None && skus == Loaded(abs(sourceDir).value, sources) && timestamp == now &&
                          attempted == PackageAll(skus, deployDir, abs, zip).attempted
      ensures !rebuilt ==> skus == old(skus) && timestamp == old(timestamp) && attempted == []
      ensures abs(sourceDir).Err? ==> err == Some(abs(sourceDir).error)
      ensures abs(sourceDir).Ok? ==> err == FirstWalkError(walk)
    {
      attempted := [];
      var dir := abs(sourceDir);
      if dir.Err? {
        return Some(dir.error), false, [];
      }
      var t, walkErr := Recent(walk);
      if walkErr.Some? {
        return walkErr, false, [];
      }
      if t > timestamp {
        var _ := LoadApps(abs, sources, now);
        var _, packaged := CreateDownloads(abs, zip);
        return None, true, packaged;
      }
      err, rebuilt := None, false;
    }
  }
}
