/**
 * The installed applications (internal/application.go): every directory
 * under the application root holds an app's metadata and icon; scanning the
 * root yields the app list, and the list is indexed by XRN.
 */
module Apps {
  import opened Wrappers
  import opened Text

  /** An installed app as the gateway lists it. */
  datatype InstalledApp = InstalledApp(
    xrn: string,
    name: string,
    description: string,
    version: string,
    date: string,
    author: string,
    icon: string,
    context: string)

  // ---------------------------------------------------------------------------
  // Removing XML processing instructions from an icon (trimSvg)

  predicate OpenAt(s: string, i: int)
  {
    0 <= i && i + 2 <= |s| && s[i] == '<' && s[i + 1] == '?'
  }

  predicate CloseAt(s: string, j: int)
  {
    0 <= j && j + 2 <= |s| && s[j] == '?' && s[j + 1] == '>'
  }

  /** The first newline at or after `from`, or the end of `s`. */
  function LineEnd(s: string, from: nat): (e: nat)
    requires from <= |s|
    ensures from <= e <= |s|
    ensures forall k :: from <= k < e ==> s[k] != '\n'
    ensures e < |s| ==> s[e] == '\n'
    decreases |s| - from
  {
    if from == |s| || s[from] == '\n' then from else LineEnd(s, from + 1)
  }

  /** The last "?>" lying wholly inside s[lo..hi], or -1. */
  function LastClose(s: string, lo: nat, hi: nat): (j: int)
    requires lo <= hi <= |s|
    ensures j == -1 || (lo <= j && j + 2 <= hi && CloseAt(s, j))
    ensures forall k :: j < k && lo <= k && k + 2 <= hi ==> !CloseAt(s, k)
    decreases hi - lo
  {
    if hi < lo + 2 then -1
    else if CloseAt(s, hi - 2) then hi - 2
    else LastClose(s, lo, hi - 1)
  }

  /**
   * Where the match of the pattern `[<][?].*[?][>]` that starts at `i` ends,
   * or -1 when none starts there. `.` does not match a newline and `.*` is
   * greedy, so the match runs to the last "?>" on the line.
   */
  function MatchEnd(s: string, i: nat): (e: int)
    requires i <= |s|
    ensures e == -1 || i + 4 <= e <= |s|
  {
    if !OpenAt(s, i) then -1
    else
      var j := LastClose(s, i + 2, LineEnd(s, i + 2));
      if j < 0 then -1 else j + 2
  }

  /** Regexp.ReplaceAllString with "": leftmost matches, left to right, deleted. */
  function StripFrom(s: string, p: nat): (r: string)
    requires p <= |s|
    decreases |s| - p
  {
    if p == |s| then []
    else
      var e := MatchEnd(s, p);
      if e >= 0 then StripFrom(s, e) else [s[p]] + StripFrom(s, p + 1)
  }

  function StripPI(s: string): string
  {
    StripFrom(s, 0)
  }

  /** trimSvg: processing instructions removed, then surrounding white space. */
  function TrimSvg(svg: string): string
  {
    TrimSpace(StripPI(svg))
  }

  /** Text with no "<?" in it is left exactly as it is. */
  lemma {:induction false} StripFromUnchanged(s: string, p: nat)
    requires p <= |s|
    requires forall i :: p <= i ==> !OpenAt(s, i)
    ensures StripFrom(s, p) == s[p..]
    decreases |s| - p
  {
    if p < |s| {
      StripFromUnchanged(s, p + 1);
      assert s[p..] == [s[p]] + s[p + 1..];
    }
  }

  lemma StripPIUnchanged(s: string)
    requires forall i :: !OpenAt(s, i)
    ensures StripPI(s) == s
  {
    StripFromUnchanged(s, 0);
  }

  lemma {:induction false} LineEndShift(a: string, b: string, k: nat)
    requires k <= |b|
    ensures LineEnd(a + b, |a| + k) == |a| + LineEnd(b, k)
    decreases |b| - k
  {
    if k < |b| && b[k] != '\n' {
      LineEndShift(a, b, k + 1);
    }
  }

  lemma {:induction false} LastCloseShift(a: string, b: string, lo: nat, hi: nat)
    requires lo <= hi <= |b|
    ensures LastClose(a + b, |a| + lo, |a| + hi) ==
            (if LastClose(b, lo, hi) < 0 then -1 else |a| + LastClose(b, lo, hi))
    decreases hi - lo
  {
    var s := a + b;
    if hi >= lo + 2 {
      assert s[|a| + hi - 2] == b[hi - 2] && s[|a| + hi - 1] == b[hi - 1];
      if !CloseAt(b, hi - 2) {
        LastCloseShift(a, b, lo, hi - 1);
      }
    }
  }

  lemma MatchEndShift(a: string, b: string, k: nat)
    requires k <= |b|
    ensures MatchEnd(a + b, |a| + k) == (if MatchEnd(b, k) < 0 then -1 else |a| + MatchEnd(b, k))
  {
    var s := a + b;
    if k + 2 <= |b| {
      assert s[|a| + k] == b[k] && s[|a| + k + 1] == b[k + 1];
    }
    if OpenAt(b, k) {
      LineEndShift(a, b, k + 2);
      LastCloseShift(a, b, k + 2, LineEnd(b, k + 2));
    }
  }

  /** Matching looks only forward, so what precedes a position does not change what follows. */
  lemma {:induction false} StripFromShift(a: string, b: string, k: nat)
    requires k <= |b|
    ensures StripFrom(a + b, |a| + k) == StripFrom(b, k)
    decreases |b| - k
  {
    if k < |b| {
      var s := a + b;
      MatchEndShift(a, b, k);
      var e := MatchEnd(b, k);
      if e >= 0 {
        assert MatchEnd(s, |a| + k) == |a| + e;
        StripFromShift(a, b, e);
        assert StripFrom(s, |a| + k) == StripFrom(s, |a| + e);
      } else {
        assert s[|a| + k] == b[k];
        StripFromShift(a, b, k + 1);
        assert StripFrom(s, |a| + k) == [b[k]] + StripFrom(s, |a| + k + 1);
      }
    }
  }

  /**
   * An XML declaration on the first line of an icon disappears together with
   * the white space around it; the rest of the icon is processed on its own.
   */
  lemma XmlDeclarationRemoved(body: string, rest: string)
    requires '\n' !in body
    ensures TrimSvg("<?" + body + "?>" + "\n" + rest) == TrimSpace(StripPI(rest))
  {
    var decl := "<?" + body + "?>";
    var s := decl + "\n" + rest;
    var n := |decl|;
    assert s[n] == '\n';
    assert forall k :: 2 <= k < n ==> s[k] != '\n' by {
      forall k | 2 <= k < n
        ensures s[k] != '\n'
      {
        if k < n - 2 {
          assert s[k] == body[k - 2];
        }
      }
    }
    assert LineEnd(s, 2) == n;
    assert CloseAt(s, n - 2);
    assert MatchEnd(s, 0) == n;
    assert StripFrom(s, n) == "\n" + StripFrom(s, n + 1);
    StripFromShift(decl + "\n", rest, 0);
    var t := StripPI(rest);
    assert StripPI(s) == "\n" + t;
    assert ("\n" + t)[1..] == t;
    assert TrimLeft("\n" + t) == TrimLeft(t);
  }

  // ---------------------------------------------------------------------------
  // Scanning the application root (findApps)

  /** What parsing metadata.js gave: a read error, a parse error or the decoded app. */
  datatype Metadata = Unreadable(readError: string) | Unparsable(parseError: string) | Parsed(app: InstalledApp)

  /** One entry of the application root, with the files read from it when it is a directory. */
  datatype DirEntry = DirEntry(name: string, isDir: bool, metadata: Metadata, icon: Result<string>)

  /**
   * One app directory: the metadata decoded, then the context set to the
   * directory name and the icon to the trimmed icon.svg; any read or parse
   * error is the result.
   */
  function LoadApp(d: DirEntry): (r: Result<InstalledApp>)
    ensures r.Ok? <==> d.metadata.Parsed? && d.icon.Ok?
    ensures r.Ok? ==> r.value == d.metadata.app.(context := d.name, icon := TrimSvg(d.icon.value))
  {
    match d.metadata
    case Unreadable(e) => Err(e)
    case Unparsable(e) => Err(e)
    case Parsed(app) =>
      match d.icon
      case Err(e) => Err(e)
      case Ok(svg) => Ok(app.(context := d.name, icon := TrimSvg(svg)))
  }

  /** The directory entries, in listing order. */
  function Directories(entries: seq<DirEntry>): (ds: seq<DirEntry>)
    ensures forall i :: 0 <= i < |ds| ==> ds[i].isDir && ds[i] in entries
    ensures forall i :: 0 <= i < |entries| && entries[i].isDir ==> entries[i] in ds
    decreases |entries|
  {
    if entries == [] then []
    else
      var init, last := entries[..|entries| - 1], entries[|entries| - 1];
      assert entries == init + [last];
      Directories(init) + (if last.isDir then [last] else [])
  }

  /** The directories of one entry: the entry itself exactly when it is a directory. */
  lemma DirectoriesOfOne(e: DirEntry)
    ensures Directories([e]) == if e.isDir then [e] else []
  {
    assert [e][..0] == [];
  }

  /** Listing order is kept: the directories of a + b are those of a, then those of b. */
  lemma {:induction false} DirectoriesAppend(a: seq<DirEntry>, b: seq<DirEntry>)
    ensures Directories(a + b) == Directories(a) + Directories(b)
    decreases |b|
  {
    if b == [] {
      assert a + b == a;
    } else {
      var init, last := b[..|b| - 1], b[|b| - 1];
      assert (a + b)[..|a + b| - 1] == a + init;
      assert (a + b)[|a + b| - 1] == last;
      DirectoriesAppend(a, init);
      assert Directories(b) == Directories(init) + (if last.isDir then [last] else []);
    }
  }

  /** findApps over a listing: every directory loaded in order, or the first error met. */
  function Scan(entries: seq<DirEntry>): (r: Result<seq<InstalledApp>>)
    decreases |entries|
  {
    if entries == [] then Ok([])
    else
      match Scan(entries[..|entries| - 1])
      case Err(e) => Err(e)
      case Ok(apps) =>
        var last := entries[|entries| - 1];
        if !last.isDir then Ok(apps)
        else
          match LoadApp(last)
          case Err(e) => Err(e)
          case Ok(app) => Ok(apps + [app])
  }

  predicate AllLoad(ds: seq<DirEntry>)
  {
    forall i :: 0 <= i < |ds| ==> LoadApp(ds[i]).Ok?
  }

  lemma AllLoadSnoc(ds: seq<DirEntry>, d: DirEntry)
    ensures AllLoad(ds + [d]) <==> AllLoad(ds) && LoadApp(d).Ok?
  {
    assert forall i :: 0 <= i < |ds| ==> (ds + [d])[i] == ds[i];
    assert (ds + [d])[|ds|] == d;
  }

  /** A scan succeeds exactly when every directory in the listing loads. */
  lemma {:induction false} ScanSucceedsIff(entries: seq<DirEntry>)
    ensures Scan(entries).Ok? <==> AllLoad(Directories(entries))
    decreases |entries|
  {
    if entries != [] {
      var init, last := entries[..|entries| - 1], entries[|entries| - 1];
      ScanSucceedsIff(init);
      if last.isDir {
        AllLoadSnoc(Directories(init), last);
      }
    }
  }

  /** A successful scan lists one app per directory, in listing order. */
  lemma {:induction false} ScanLists(entries: seq<DirEntry>)
    requires Scan(entries).Ok?
    ensures |Scan(entries).value| == |Directories(entries)|
    ensures forall i :: 0 <= i < |Directories(entries)| ==>
              LoadApp(Directories(entries)[i]) == Ok(Scan(entries).value[i])
    decreases |entries|
  {
    if entries != [] {
      var init, last := entries[..|entries| - 1], entries[|entries| - 1];
      ScanLists(init);
      var ds0, ds := Directories(init), Directories(entries);
      assert forall i :: 0 <= i < |ds0| ==> ds[i] == ds0[i];
      if last.isDir {
        assert ds[|ds0|] == last;
      }
    }
  }

  /** A failed scan reports the error of the first directory that does not load. */
  lemma {:induction false} ScanFirstError(entries: seq<DirEntry>) returns (i: nat)
    requires Scan(entries).Err?
    ensures i < |Directories(entries)|
    ensures LoadApp(Directories(entries)[i]) == Err(Scan(entries).error)
    ensures forall j :: 0 <= j < i ==> LoadApp(Directories(entries)[j]).Ok?
    decreases |entries|
  {
    var init, last := entries[..|entries| - 1], entries[|entries| - 1];
    var ds0, ds := Directories(init), Directories(entries);
    assert ds == ds0 + (if last.isDir then [last] else []);
    if Scan(init).Err? {
      i := ScanFirstError(init);
      assert Scan(entries) == Scan(init);
      assert ds[i] == ds0[i];
      forall j | 0 <= j < i
        ensures LoadApp(ds[j]).Ok?
      {
        assert ds[j] == ds0[j];
      }
    } else {
      ScanSucceedsIff(init);
      i := |ds0|;
      assert last.isDir && LoadApp(last) == Err(Scan(entries).error);
      assert ds[i] == last;
      forall j | 0 <= j < i
        ensures LoadApp(ds[j]).Ok?
      {
        assert ds[j] == ds0[j];
      }
    }
  }

  /** Once a prefix of the listing fails, the whole scan fails with the same error. */
  lemma {:induction false} ScanErrorSticks(entries: seq<DirEntry>, n: nat)
    requires n <= |entries|
    requires Scan(entries[..n]).Err?
    ensures Scan(entries) == Scan(entries[..n])
    decreases |entries|
  {
    if n < |entries| {
      var init := entries[..|entries| - 1];
      assert init[..n] == entries[..n];
      ScanErrorSticks(init, n);
    } else {
      assert entries[..n] == entries;
    }
  }

  /** findApps: a listing error is returned as it is; otherwise the scan, loop by loop. */
  method FindApps(listing: Result<seq<DirEntry>>) returns (r: Result<seq<InstalledApp>>)
    ensures listing.Err? ==> r == Err(listing.error)
    ensures listing.Ok? ==> r == Scan(listing.value)
  {
    if listing.Err? {
      return Err(listing.error);
    }
    var contexts := listing.value;
    var installs: seq<InstalledApp> := [];
    for i := 0 to |contexts|
      invariant Scan(contexts[..i]) == Ok(installs)
    {
      assert contexts[..i + 1][..i] == contexts[..i];
      var d := contexts[i];
      if !d.isDir {
        continue;
      }
      if d.metadata.Unreadable? {
        ScanErrorSticks(contexts, i + 1);
        return Err(d.metadata.readError);
      }
      if d.metadata.Unparsable? {
        ScanErrorSticks(contexts, i + 1);
        return Err(d.metadata.parseError);
      }
      if d.icon.Err? {
        ScanErrorSticks(contexts, i + 1);
        return Err(d.icon.error);
      }
      var install := d.metadata.app.(context := d.name, icon := TrimSvg(d.icon.value));
      installs := installs + [install];
    }
    assert contexts[..|contexts|] == contexts;
    r := Ok(installs);
  }

  // ---------------------------------------------------------------------------
  // Indexing by XRN (AppMap)

  /** The apps keyed by XRN; a later app replaces an earlier one with the same XRN. */
  function IndexByXrn(apps: seq<InstalledApp>): (m: map<string, InstalledApp>)
    decreases |apps|
  {
    if apps == [] then map[]
    else IndexByXrn(apps[..|apps| - 1])[apps[|apps| - 1].xrn := apps[|apps| - 1]]
  }

  /**
   * The keys are exactly the apps' XRNs, every value is one of the apps filed
   * under its own XRN, and an app no later app shares an XRN with is the one kept.
   */
  lemma {:induction false} IndexByXrnMeaning(apps: seq<InstalledApp>)
    ensures var m := IndexByXrn(apps);
      && (forall i :: 0 <= i < |apps| ==> apps[i].xrn in m)
      && (forall x :: x in m ==> m[x].xrn == x && m[x] in apps)
      && (forall i :: 0 <= i < |apps| && (forall j :: i < j < |apps| ==> apps[j].xrn != apps[i].xrn) ==>
                       m[apps[i].xrn] == apps[i])
    decreases |apps|
  {
    if apps != [] {
      var init, last := apps[..|apps| - 1], apps[|apps| - 1];
      IndexByXrnMeaning(init);
      assert apps == init + [last];
      var m0, m := IndexByXrn(init), IndexByXrn(apps);
      forall i | 0 <= i < |apps|
        ensures apps[i].xrn in m
      {
        if i < |init| {
          assert apps[i] == init[i];
        }
      }
      forall x | x in m
        ensures m[x].xrn == x && m[x] in apps
      {
        if x != last.xrn {
          assert m[x] == m0[x] && m0[x] in init;
        }
      }
      forall i | 0 <= i < |apps| && (forall j :: i < j < |apps| ==> apps[j].xrn != apps[i].xrn)
        ensures m[apps[i].xrn] == apps[i]
      {
        if i < |init| {
          assert apps[i] == init[i];
          assert apps[|apps| - 1] == last;
          assert forall j :: i < j < |init| ==> init[j] == apps[j];
          assert m[apps[i].xrn] == m0[init[i].xrn];
        }
      }
    }
  }

  class Applications {
    const dir: string
    var installedApps: seq<InstalledApp>

    /** NewApplications: no apps until the first reload. */
    constructor (dir: string)
      ensures this.dir == dir && installedApps == []
    {
      this.dir := dir;
      installedApps := [];
    }

    /** Applications.AppMap: the current apps indexed by XRN. */
    method AppMap() returns (result: map<string, InstalledApp>)
      ensures result == IndexByXrn(installedApps)
    {
      result := map[];
      for i := 0 to |installedApps|
        invariant result == IndexByXrn(installedApps[..i])
      {
        assert installedApps[..i + 1][..i] == installedApps[..i];
        result := result[installedApps[i].xrn := installedApps[i]];
      }
      assert installedApps[..|installedApps|] == installedApps;
    }

    /**
     * Applications.Reload: rescans the root (its listing given here); on an
     * error the previous list is kept and the error returned.
     */
    method Reload(listing: Result<seq<DirEntry>>) returns (err: Option<string>)
      modifies this
      ensures listing.Ok? && Scan(listing.value).Ok? ==> err == None && installedApps == Scan(listing.value).value
      ensures listing.Err? ==> err == Some(listing.error) && installedApps == old(installedApps)
      ensures listing.Ok? && Scan(listing.value).Err? ==>
                err == Some(Scan(listing.value).error) && installedApps == old(installedApps)
    {
      var apps := FindApps(listing);
      if apps.Err? {
        return Some(apps.error);
      }
      installedApps := apps.value;
      err := None;
    }
  }
}
