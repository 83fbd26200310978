/** Properties of the extractor's decisions: the rate-limit rule, the
    directory filters, the shape of a year's manifest (including how a
    failing subdirectory ends it), the batch a year yields, and the list
    joining done before the CSV is written. */
module ExtractFacts {
  import opened Wrappers
  import opened Strings
  import opened CveRecord
  import opened Parser
  import opened Extract
  import opened Seqs

  // --------------------------------------------------------- rate limit

  /** A retry is made exactly for a 403 whose text mentions a rate limit,
      while the reset instant plus five seconds lies in the future; the
      sleep then ends five seconds after the reset instant. */
  lemma RateLimitRule<T>(r: Response<T>, now: int)
    ensures HandleRateLimit(r, now).Some? <==>
      (r.status == 403 && Contains(Lower(r.text), "rate limit") && r.rateLimitReset.GetOr(0) + 5 > now)
    ensures HandleRateLimit(r, now).Some? ==> now + HandleRateLimit(r, now).value == r.rateLimitReset.GetOr(0) + 5
  {
  }

  /** Without an `X-RateLimit-Reset` header the reset instant is 0, so no
      retry happens at any realistic clock reading. */
  lemma MissingResetNeverRetries<T>(r: Response<T>, now: int)
    requires r.rateLimitReset.None? && now >= 5
    ensures HandleRateLimit(r, now).None?
  {
  }

  /** The text is matched case-insensitively. */
  lemma RateLimitCaseInsensitive<T>(r: Response<T>, now: int)
    ensures HandleRateLimit(r.(text := Lower(r.text)), now) == HandleRateLimit(r, now)
  {
    LowerIdempotent(r.text);
  }

  /** Every fetch site makes one request, and a second one exactly when the
      first response asks for a rate-limit wait; the reply used is the last. */
  lemma AtMostOneRetry<T>(ex: Exchange<T>)
    ensures Fetch(ex).requests == 1 || Fetch(ex).requests == 2
    ensures Fetch(ex).requests == 2 <==> (ex.first.Received? && HandleRateLimit(ex.first.response, ex.now).Some?)
    ensures Fetch(ex).reply == (if Fetch(ex).requests == 2 then ex.retry else ex.first)
  {
  }

  // ------------------------------------------------------------ listings

  function SkippedName(name: string): bool {
    name == ".github" || name == "assets"
  }

  /** A name is a year exactly when some `dir` entry carries it and it is
      neither `.github` nor `assets`. */
  lemma YearNamesMembers(items: seq<DirEntry>, name: string)
    ensures name in YearNames(items) <==>
      (!SkippedName(name) && exists i :: 0 <= i < |items| && items[i].kind == "dir" && items[i].name == name)
  {
    if name in YearNames(items) {
      var i := YearNameSource(items, name);
    }
    if !SkippedName(name) && exists i :: 0 <= i < |items| && items[i].kind == "dir" && items[i].name == name {
      var i :| 0 <= i < |items| && items[i].kind == "dir" && items[i].name == name;
      YearNameIncluded(items, i);
    }
  }

  lemma {:induction false} YearNameSource(items: seq<DirEntry>, name: string) returns (i: nat)
    requires name in YearNames(items)
    ensures !SkippedName(name) && i < |items| && items[i].kind == "dir" && items[i].name == name
    decreases |items|
  {
    var n := |items| - 1;
    if name in YearNames(items[..n]) {
      i := YearNameSource(items[..n], name);
      assert items[..n][i] == items[i];
    } else {
      i := n;
    }
  }

  lemma {:induction false} YearNameIncluded(items: seq<DirEntry>, i: nat)
    requires i < |items| && items[i].kind == "dir" && !SkippedName(items[i].name)
    ensures items[i].name in YearNames(items)
    decreases |items|
  {
    var n := |items| - 1;
    if i < n {
      assert items[..n][i] == items[i];
      YearNameIncluded(items[..n], i);
    }
  }

  /** Year names keep the listing's order: a split listing yields the
      concatenated years. */
  lemma {:induction false} YearNamesAppend(a: seq<DirEntry>, b: seq<DirEntry>)
    ensures YearNames(a + b) == YearNames(a) + YearNames(b)
    decreases |b|
  {
    if b == [] {
      assert a + b == a;
    } else {
      var n := |b| - 1;
      assert (a + b)[..|a + b| - 1] == a + b[..n];
      YearNamesAppend(a, b[..n]);
    }
  }

  /** A reference is in a subdirectory's manifest exactly when the listing
      has a CVE file entry with that name and download URL. */
  lemma CveFilesMembers(items: seq<DirEntry>, f: FileRef)
    ensures f in CveFiles(items) <==>
      (exists i :: 0 <= i < |items| && IsCveFile(items[i]) && FileRef(items[i].name, items[i].downloadUrl) == f)
  {
    if f in CveFiles(items) {
      var i := CveFileSource(items, f);
    }
    if exists i :: 0 <= i < |items| && IsCveFile(items[i]) && FileRef(items[i].name, items[i].downloadUrl) == f {
      var i :| 0 <= i < |items| && IsCveFile(items[i]) && FileRef(items[i].name, items[i].downloadUrl) == f;
      CveFileIncluded(items, i);
    }
  }

  lemma {:induction false} CveFileSource(items: seq<DirEntry>, f: FileRef) returns (i: nat)
    requires f in CveFiles(items)
    ensures i < |items| && IsCveFile(items[i]) && FileRef(items[i].name, items[i].downloadUrl) == f
    decreases |items|
  {
    var n := |items| - 1;
    if f in CveFiles(items[..n]) {
      i := CveFileSource(items[..n], f);
      assert items[..n][i] == items[i];
    } else {
      i := n;
    }
  }

  lemma {:induction false} CveFileIncluded(items: seq<DirEntry>, i: nat)
    requires i < |items| && IsCveFile(items[i])
    ensures FileRef(items[i].name, items[i].downloadUrl) in CveFiles(items)
    decreases |items|
  {
    var n := |items| - 1;
    if i < n {
      assert items[..n][i] == items[i];
      CveFileIncluded(items[..n], i);
    }
  }

  /** CVE files keep the listing's order: a split listing yields the
      concatenated references. */
  lemma {:induction false} CveFilesAppend(a: seq<DirEntry>, b: seq<DirEntry>)
    ensures CveFiles(a + b) == CveFiles(a) + CveFiles(b)
    decreases |b|
  {
    if b == [] {
      assert a + b == a;
    } else {
      var n := |b| - 1;
      assert (a + b)[..|a + b| - 1] == a + b[..n];
      CveFilesAppend(a, b[..n]);
    }
  }

  // ----------------------------------------------------------- manifests

  /** `d.get(k)` on a manifest. */
  function Get(m: Manifest, k: string): Option<seq<FileRef>>
    decreases |m|
  {
    if m == [] then None
    else if m[0].0 == k then Some(m[0].1)
    else Get(m[1..], k)
  }

  /** The dictionary's keys are distinct. */
  predicate DistinctKeys(m: Manifest) {
    forall i, j :: 0 <= i < j < |m| ==> Keys(m)[i] != Keys(m)[j]
  }

  /** Every reference names a `CVE-*.json` file. */
  predicate OnlyCveFiles(m: Manifest) {
    forall i :: 0 <= i < |m| ==> CveRefs(m[i].1)
  }

  predicate CveRefs(v: seq<FileRef>) {
    forall j :: 0 <= j < |v| ==> StartsWith(v[j].name, "CVE-") && EndsWith(v[j].name, ".json")
  }

  function Names(dirs: seq<DirEntry>): (r: set<string>)
    ensures forall k :: k in r <==> exists i :: 0 <= i < |dirs| && dirs[i].name == k
  {
    set i | 0 <= i < |dirs| :: dirs[i].name
  }

  /** Assignment: the key maps to the new value and the other keys keep
      theirs. */
  lemma {:induction false} PutGet(m: Manifest, k: string, v: seq<FileRef>)
    ensures forall x :: Get(Put(m, k, v), x) == (if x == k then Some(v) else Get(m, x))
    decreases |m|
  {
    if m != [] && m[0].0 != k {
      PutGet(m[1..], k, v);
    }
  }

  /** Assignment keeps the key order: an existing key stays in place, a new
      one goes last. */
  lemma {:induction false} PutKeys(m: Manifest, k: string, v: seq<FileRef>)
    ensures Keys(Put(m, k, v)) == if k in Keys(m) then Keys(m) else Keys(m) + [k]
    decreases |m|
  {
    if m != [] {
      KeysCons(m[0], m[1..]);
      assert [m[0]] + m[1..] == m;
      if m[0].0 != k {
        PutKeys(m[1..], k, v);
        KeysCons(m[0], Put(m[1..], k, v));
      } else {
        KeysCons((k, v), m[1..]);
      }
    }
  }

  lemma KeysCons(x: (string, seq<FileRef>), rest: Manifest)
    ensures Keys([x] + rest) == [x.0] + Keys(rest)
  {
  }

  lemma PutDistinct(m: Manifest, k: string, v: seq<FileRef>)
    requires DistinctKeys(m)
    ensures DistinctKeys(Put(m, k, v))
  {
    PutKeys(m, k, v);
  }

  lemma PutKeyMembers(m: Manifest, k: string, v: seq<FileRef>)
    ensures forall x :: x in Keys(Put(m, k, v)) <==> (x == k || x in Keys(m))
  {
    PutKeys(m, k, v);
  }

  /** Every visited subdirectory is a key with the files of its listing,
      given that no listing request fails. */
  lemma {:induction false} ManifestNoFailures(m: Manifest, dirs: seq<DirEntry>, server: string -> Exchange<seq<DirEntry>>)
    requires forall i :: 0 <= i < |dirs| ==> SubdirListing(server(dirs[i].name)).Some?
    ensures forall x :: (Get(ManifestFrom(m, dirs, server), x) ==
      if x in Names(dirs) then SubdirListing(server(x)) else Get(m, x))
    decreases |dirs|
  {
    if dirs != [] {
      var name := dirs[0].name;
      var m1 := Put(m, name, []);
      var files := SubdirListing(server(name)).value;
      PutGet(m, name, []);
      PutGet(m1, name, files);
      ManifestNoFailures(Put(m1, name, files), dirs[1..], server);
      forall x
        ensures x in Names(dirs) <==> x == name || x in Names(dirs[1..])
      {
        if x in Names(dirs) {
          var i :| 0 <= i < |dirs| && dirs[i].name == x;
          if i > 0 {
            assert dirs[1..][i - 1] == dirs[i];
          }
        }
        if x in Names(dirs[1..]) {
          var i :| 0 <= i < |dirs[1..]| && dirs[1..][i].name == x;
          assert dirs[i + 1] == dirs[1..][i];
        }
      }
    }
  }

  /** A failing listing request ends the loop: the failing subdirectory is
      a key with no files and no later subdirectory is added. */
  lemma {:induction false} ManifestStopsAtFailure(m: Manifest, dirs: seq<DirEntry>,
                                                   server: string -> Exchange<seq<DirEntry>>, j: nat)
    requires j < |dirs|
    requires forall i :: 0 <= i < j ==> SubdirListing(server(dirs[i].name)).Some?
    requires SubdirListing(server(dirs[j].name)).None?
    ensures Get(ManifestFrom(m, dirs, server), dirs[j].name) == Some([])
    ensures forall x :: x in Keys(ManifestFrom(m, dirs, server)) <==> x in Keys(m) || x in Names(dirs[..j + 1])
    decreases j
  {
    var name := dirs[0].name;
    var m1 := Put(m, name, []);
    PutKeyMembers(m, name, []);
    if j == 0 {
      PutGet(m, name, []);
      assert Names(dirs[..1]) == {name} by {
        assert dirs[..1][0] == dirs[0];
      }
    } else {
      var files := SubdirListing(server(name)).value;
      PutKeyMembers(m1, name, files);
      assert dirs[1..][j - 1] == dirs[j];
      assert forall i :: 0 <= i < j - 1 ==> dirs[1..][i] == dirs[i + 1];
      ManifestStopsAtFailure(Put(m1, name, files), dirs[1..], server, j - 1);
      assert ManifestFrom(m, dirs, server) == ManifestFrom(Put(m1, name, files), dirs[1..], server);
      forall x
        ensures x in Names(dirs[..j + 1]) <==> x == name || x in Names(dirs[1..][..j])
      {
        assert dirs[1..][..j] == dirs[1..j + 1];
        if x in Names(dirs[..j + 1]) {
          var i :| 0 <= i < j + 1 && dirs[..j + 1][i].name == x;
          if i > 0 {
            assert dirs[1..][..j][i - 1] == dirs[..j + 1][i];
          }
        }
        if x in Names(dirs[1..][..j]) {
          var i :| 0 <= i < j && dirs[1..][..j][i].name == x;
          assert dirs[..j + 1][i + 1] == dirs[1..][..j][i];
        }
      }
    }
  }

  /** The loop keeps the dictionary's keys distinct and holds only CVE file
      references. */
  lemma {:induction false} ManifestWellFormed(m: Manifest, dirs: seq<DirEntry>, server: string -> Exchange<seq<DirEntry>>)
    requires DistinctKeys(m) && OnlyCveFiles(m)
    ensures DistinctKeys(ManifestFrom(m, dirs, server)) && OnlyCveFiles(ManifestFrom(m, dirs, server))
    decreases |dirs|
  {
    if dirs != [] {
      var name := dirs[0].name;
      var m1 := Put(m, name, []);
      PutDistinct(m, name, []);
      PutOnlyCveFiles(m, name, []);
      match SubdirListing(server(name))
      case None =>
      case Some(files) =>
        PutDistinct(m1, name, files);
        var r := Fetch(server(name)).reply.response;
        if r.status == 200 {
          CveFilesAreCveFiles(r.body);
        }
        PutOnlyCveFiles(m1, name, files);
        ManifestWellFormed(Put(m1, name, files), dirs[1..], server);
    }
  }

  lemma {:induction false} PutOnlyCveFiles(m: Manifest, k: string, v: seq<FileRef>)
    requires OnlyCveFiles(m) && CveRefs(v)
    ensures OnlyCveFiles(Put(m, k, v))
    decreases |m|
  {
    if m != [] && m[0].0 != k {
      assert OnlyCveFiles(m[1..]) by {
        forall i | 0 <= i < |m[1..]|
          ensures m[1..][i] == m[i + 1]
        {
        }
      }
      PutOnlyCveFiles(m[1..], k, v);
      var p := Put(m, k, v);
      assert forall i :: 1 <= i < |p| ==> p[i] == Put(m[1..], k, v)[i - 1];
    } else if m != [] {
      var p := Put(m, k, v);
      assert forall i :: 1 <= i < |p| ==> p[i] == m[i];
    }
  }

  lemma {:induction false} CveFilesAreCveFiles(items: seq<DirEntry>)
    ensures CveRefs(CveFiles(items))
    decreases |items|
  {
    if items != [] {
      CveFilesAreCveFiles(items[..|items| - 1]);
    }
  }

  /** A year's manifest always carries the year; its keys are distinct, its
      references are CVE files, and a failed year listing leaves it empty. */
  lemma YearManifestShape(year: string, yearEx: Exchange<seq<DirEntry>>, server: string -> Exchange<seq<DirEntry>>)
    ensures CveFilesForYear(year, yearEx, server).year == year
    ensures DistinctKeys(CveFilesForYear(year, yearEx, server).subdirs)
    ensures OnlyCveFiles(CveFilesForYear(year, yearEx, server).subdirs)
    ensures !Ok(Fetch(yearEx).reply) ==> CveFilesForYear(year, yearEx, server).subdirs == []
  {
    var f := Fetch(yearEx);
    if Ok(f.reply) {
      ManifestWellFormed([], Dirs(f.reply.response.body), server);
    }
  }

  // ------------------------------------------------------------- batches

  /** One file yields at most one record, and one exactly when it was
      downloaded with status 200 and decoded to a truthy value. */
  lemma FileRecordsShape(ex: Exchange<CveBody>)
    ensures |FileRecords(ex)| <= 1
    ensures |FileRecords(ex)| == 1 <==>
      (Ok(Fetch(ex).reply) && (Fetch(ex).reply.response.body.NotAnObject? || Fetch(ex).reply.response.body.Object?))
  {
  }

  lemma SubdirBatchBound(files: seq<FileRef>, fetch: string -> Exchange<CveBody>)
    ensures |SubdirBatch(files, fetch)| <= |files|
  {
    forall i | 0 <= i < |files|
      ensures |FileBatch(fetch)(files[i])| <= 1
    {
      FileRecordsShape(fetch(files[i].downloadUrl));
    }
    FlatMapShort(files, FileBatch(fetch));
  }

  /** The CVE document a download yields, if it yields one. */
  function DocOf(ex: Exchange<CveBody>): Option<Document> {
    var reply := Fetch(ex).reply;
    if Ok(reply) && reply.response.body.Object? then Some(reply.response.body.doc) else None
  }

  /** When every download yields a CVE document, the batch holds one
      normalised record per file, in file order. */
  lemma SubdirBatchAllObjects(files: seq<FileRef>, fetch: string -> Exchange<CveBody>)
    requires forall i :: 0 <= i < |files| ==> DocOf(fetch(files[i].downloadUrl)).Some?
    ensures |SubdirBatch(files, fetch)| == |files|
    ensures forall i :: 0 <= i < |files| ==> (DocOf(fetch(files[i].downloadUrl)).Some? &&
      SubdirBatch(files, fetch)[i] == ExtractCve(DocOf(fetch(files[i].downloadUrl)).value))
  {
    forall i | 0 <= i < |files|
      ensures FileBatch(fetch)(files[i]) == [ExtractCve(DocOf(fetch(files[i].downloadUrl)).value)]
    {
    }
    FlatMapSingletons(files, FileBatch(fetch));
  }

  /** The year batch is the concatenation of the subdirectory batches. */
  lemma YearBatchAppend(a: Manifest, b: Manifest, fetch: string -> Exchange<CveBody>)
    ensures YearBatch(a + b, fetch) == YearBatch(a, fetch) + YearBatch(b, fetch)
  {
    FlatMapAppend(a, b, EntryBatch(fetch));
  }

  /** A year batch never holds more records than the manifest has files. */
  lemma {:induction false} YearBatchBound(subdirs: Manifest, fetch: string -> Exchange<CveBody>)
    ensures |YearBatch(subdirs, fetch)| <= FileCount(subdirs)
    decreases |subdirs|
  {
    if subdirs != [] {
      var n := |subdirs| - 1;
      YearBatchBound(subdirs[..n], fetch);
      SubdirBatchBound(subdirs[n].1, fetch);
      assert YearBatch(subdirs, fetch) == YearBatch(subdirs[..n], fetch) + SubdirBatch(subdirs[n].1, fetch);
    }
  }

  function FileCount(subdirs: Manifest): nat
    decreases |subdirs|
  {
    if subdirs == [] then 0 else FileCount(subdirs[..|subdirs| - 1]) + |subdirs[|subdirs| - 1].1|
  }

  // ----------------------------------------------------------------- CSV

  /** A None record anywhere in the batch means no CSV file is written. */
  lemma NoneRecordBlocksCsv(batch: seq<Option<Record>>, k: nat)
    requires k < |batch| && batch[k].None?
    ensures CsvRows(batch).None?
  {
  }

  /** After joining, every cell of a record's row is a string, with the
      same columns as before; only the two list columns change. */
  lemma JoinedRowIsFlat(r: Record)
    ensures JoinListFields(RowOf(r)).Keys == RowOf(r).Keys
    ensures forall k :: k in JoinListFields(RowOf(r)) ==> JoinListFields(RowOf(r))[k].Text?
    ensures forall k :: k in RowOf(r) && k != "impacted_products" && k != "vulnerable_versions" ==>
      JoinListFields(RowOf(r))[k] == RowOf(r)[k]
    ensures JoinListFields(RowOf(r))["impacted_products"] == Text(Join(r.impactedProducts, ','))
    ensures JoinListFields(RowOf(r))["vulnerable_versions"] == Text(Join(r.vulnerableVersions, ','))
  {
    var row := RowOf(r);
    var p := JoinField(row, "impacted_products");
    assert p == row["impacted_products" := Text(Join(r.impactedProducts, ','))];
    assert JoinField(p, "vulnerable_versions") == p["vulnerable_versions" := Text(Join(r.vulnerableVersions, ','))];
  }

  /** Joining is idempotent: a row that was joined has no list left. */
  lemma JoinIdempotent(row: Row)
    ensures JoinListFields(JoinListFields(row)) == JoinListFields(row)
  {
  }

  /** The joined list column splits back into the list when it is non-empty
      and no item holds a comma; an empty list and a list of one empty
      string give the same cell. */
  lemma JoinedProductsRoundTrip(r: Record)
    requires |r.impactedProducts| >= 1
    requires forall k :: 0 <= k < |r.impactedProducts| ==> ',' !in r.impactedProducts[k]
    ensures Split(JoinListFields(RowOf(r))["impacted_products"].text, ',') == r.impactedProducts
  {
    JoinedRowIsFlat(r);
    SplitJoin(r.impactedProducts, ',');
  }

  lemma JoinedVersionsRoundTrip(r: Record)
    requires |r.vulnerableVersions| >= 1
    requires forall k :: 0 <= k < |r.vulnerableVersions| ==> ',' !in r.vulnerableVersions[k]
    ensures Split(JoinListFields(RowOf(r))["vulnerable_versions"].text, ',') == r.vulnerableVersions
  {
    JoinedRowIsFlat(r);
    SplitJoin(r.vulnerableVersions, ',');
  }

  lemma EmptyListIsAmbiguous()
    ensures Join([], ',') == Join([""], ',')
  {
  }
}
