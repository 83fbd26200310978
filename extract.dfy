/** The decisions of the extractor class `cveExtractor` that feed the
    normaliser: when to wait and retry a rate-limited request, which
    top-level directories are years, which listing entries are CVE files and
    how a failing subdirectory degrades, how the per-subdirectory record
    batches are assembled, and how the two list columns are joined for the
    CSV. HTTP is abstract: every request is an `Exchange` giving the first
    reply, the clock reading after it, and the reply a repeated request
    would get. */
module Extract {
  import opened Wrappers
  import opened Strings
  import opened CveRecord
  import opened Parser
  import opened Seqs

  // ------------------------------------------------------------- HTTP

  datatype Response<T> = Response(status: int, text: string, rateLimitReset: Option<int>, body: T)

  /** A request either raises a network error or yields a response. */
  datatype Reply<T> = NetworkError | Received(response: Response<T>)

  /** One fetch site: the first reply, `int(time.time())` when it is
      inspected, and the reply to the repeated request. */
  datatype Exchange<T> = Exchange(first: Reply<T>, now: int, retry: Reply<T>)

  /** `_handle_rate_limit`: the number of seconds slept before the single
      retry, or None when no retry is made. A missing `X-RateLimit-Reset`
      header counts as 0. */
  function HandleRateLimit<T>(r: Response<T>, now: int): Option<nat> {
    if r.status == 403 && Contains(Lower(r.text), "rate limit") then
      var waitTime := r.rateLimitReset.GetOr(0) - now + 5;
      if waitTime > 0 then Some(waitTime) else None
    else None
  }

  datatype Fetched<T> = Fetched(reply: Reply<T>, requests: nat)

  /** `get`, then `if self._handle_rate_limit(response): get` again. */
  function Fetch<T>(ex: Exchange<T>): Fetched<T> {
    match ex.first
    case NetworkError => Fetched(NetworkError, 1)
    case Received(r) =>
      if HandleRateLimit(r, ex.now).Some? then Fetched(ex.retry, 2) else Fetched(ex.first, 1)
  }

  predicate Ok<T>(reply: Reply<T>) {
    reply.Received? && reply.response.status == 200
  }

  // -------------------------------------------------------- listings

  /** One entry of a GitHub contents listing. */
  datatype DirEntry = DirEntry(name: string, kind: string, downloadUrl: string)

  /** The names of `dir` entries other than `.github` and `assets`. */
  function YearNames(items: seq<DirEntry>): seq<string>
    decreases |items|
  {
    if items == [] then []
    else
      var n := |items| - 1;
      var it := items[n];
      YearNames(items[..n]) + (if it.kind == "dir" && it.name != ".github" && it.name != "assets" then [it.name] else [])
  }

  /** `get_years`: one request, no rate-limit handling; a network error or
      a non-200 status gives []. */
  method GetYears(reply: Reply<seq<DirEntry>>) returns (years: seq<string>)
    ensures years == (if Ok(reply) then YearNames(reply.response.body) else [])
  {
    if !Ok(reply) {
      return [];
    }
    var data := reply.response.body;
    years := [];
    for i := 0 to |data|
      invariant years == YearNames(data[..i])
    {
      assert data[..i + 1][..i] == data[..i];
      if data[i].kind == "dir" && data[i].name !in [".github", "assets"] {
        years := years + [data[i].name];
      }
    }
    assert data[..|data|] == data;
  }

  /** A manifest entry: `{name, download_url}`. */
  datatype FileRef = FileRef(name: string, downloadUrl: string)

  predicate IsCveFile(item: DirEntry) {
    item.kind == "file" && StartsWith(item.name, "CVE-") && EndsWith(item.name, ".json")
  }

  /** The CVE file entries of a subdirectory listing, in listing order. */
  function CveFiles(items: seq<DirEntry>): seq<FileRef>
    decreases |items|
  {
    if items == [] then []
    else
      var n := |items| - 1;
      CveFiles(items[..n]) + (if IsCveFile(items[n]) then [FileRef(items[n].name, items[n].downloadUrl)] else [])
  }

  /** `[item for item in listing if item['type'] == 'dir']`. */
  function Dirs(items: seq<DirEntry>): (r: seq<DirEntry>)
    ensures forall i :: 0 <= i < |r| ==> r[i].kind == "dir"
    decreases |items|
  {
    if items == [] then []
    else
      var n := |items| - 1;
      Dirs(items[..n]) + (if items[n].kind == "dir" then [items[n]] else [])
  }

  // ------------------------------------------------------- manifests

  /** `year_data['subdirs']`: a dictionary in insertion order. */
  type Manifest = seq<(string, seq<FileRef>)>

  function Keys(m: Manifest): (r: seq<string>)
    ensures |r| == |m| && forall i :: 0 <= i < |m| ==> r[i] == m[i].0
  {
    seq(|m|, i requires 0 <= i < |m| => m[i].0)
  }

  /** `d[k] = v`: replaces in place when `k` is present, appends otherwise. */
  function Put(m: Manifest, k: string, v: seq<FileRef>): Manifest
    decreases |m|
  {
    if m == [] then [(k, v)]
    else if m[0].0 == k then [(k, v)] + m[1..]
    else [m[0]] + Put(m[1..], k, v)
  }

  datatype YearData = YearData(year: string, subdirs: Manifest)

  /** A subdirectory's files, or None when its request raised a network
      error, which ends the whole year's loop. */
  function SubdirListing(ex: Exchange<seq<DirEntry>>): Option<seq<FileRef>> {
    var f := Fetch(ex);
    match f.reply
    case NetworkError => None
    case Received(r) => Some(if r.status == 200 then CveFiles(r.body) else [])
  }

  /** The subdirectory loop: the key is set to [] before the request. */
  function ManifestFrom(m: Manifest, dirs: seq<DirEntry>, server: string -> Exchange<seq<DirEntry>>): Manifest
    decreases |dirs|
  {
    if dirs == [] then m
    else
      var name := dirs[0].name;
      var m1 := Put(m, name, []);
      match SubdirListing(server(name))
      case None => m1
      case Some(files) => ManifestFrom(Put(m1, name, files), dirs[1..], server)
  }

  /** `get_cve_files_for_year`: a failed year listing leaves `subdirs` empty. */
  function CveFilesForYear(year: string, yearEx: Exchange<seq<DirEntry>>,
                           server: string -> Exchange<seq<DirEntry>>): YearData
  {
    var f := Fetch(yearEx);
    if Ok(f.reply) then YearData(year, ManifestFrom([], Dirs(f.reply.response.body), server))
    else YearData(year, [])
  }

  method GetCveFilesForYear(year: string, yearEx: Exchange<seq<DirEntry>>,
                            server: string -> Exchange<seq<DirEntry>>) returns (yd: YearData)
    ensures yd == CveFilesForYear(year, yearEx, server)
  {
    var subdirs: Manifest := [];
    var response := Fetch(yearEx).reply;
    if !Ok(response) {
      return YearData(year, subdirs);
    }
    var dirs := Dirs(response.response.body);
    for i := 0 to |dirs|
      invariant ManifestFrom([], dirs, server) == ManifestFrom(subdirs, dirs[i..], server)
    {
      assert dirs[i..][0] == dirs[i] && dirs[i..][1..] == dirs[i + 1..];
      var name := dirs[i].name;
      subdirs := Put(subdirs, name, []);
      var subdirResponse := Fetch(server(name)).reply;
      if subdirResponse.NetworkError? {
        // RequestException: caught outside the loop, the year is returned as it stands
        return YearData(year, subdirs);
      }
      if subdirResponse.response.status == 200 {
        var files := subdirResponse.response.body;
        var found: seq<FileRef> := [];
        for j := 0 to |files|
          invariant found == CveFiles(files[..j])
        {
          assert files[..j + 1][..j] == files[..j];
          if files[j].kind == "file" && StartsWith(files[j].name, "CVE-") && EndsWith(files[j].name, ".json") {
            found := found + [FileRef(files[j].name, files[j].downloadUrl)];
          }
        }
        assert files[..|files|] == files;
        subdirs := Put(subdirs, name, found);
      } else {
        subdirs := Put(subdirs, name, []);
      }
    }
    yd := YearData(year, subdirs);
  }

  // ---------------------------------------------------------- batches

  /** What `response.json()` gives for a CVE file: undecodable, falsy
      (`{}`, `[]`, `null`, ...), a truthy value that is not an object (the
      normaliser raises on it and returns None), or a CVE document. */
  datatype CveBody = Malformed | Falsy | NotAnObject | Object(doc: Document)

  /** The records one file contributes: none when the download raised, did
      not answer 200, or was not truthy JSON; otherwise exactly one, even
      when the normaliser returned None. */
  function FileRecords(ex: Exchange<CveBody>): seq<Option<Record>> {
    var reply := Fetch(ex).reply;
    if !Ok(reply) then []
    else
      match reply.response.body
      case Malformed => []
      case Falsy => []
      case NotAnObject => [None]
      case Object(doc) => [ExtractCve(doc)]
  }

  /** The records of one manifest entry. */
  function FileBatch(fetch: string -> Exchange<CveBody>): FileRef -> seq<Option<Record>> {
    (f: FileRef) => FileRecords(fetch(f.downloadUrl))
  }

  /** `subdir_processed_files`: the files' records in file order. */
  function SubdirBatch(files: seq<FileRef>, fetch: string -> Exchange<CveBody>): seq<Option<Record>> {
    FlatMap(files, FileBatch(fetch))
  }

  function EntryBatch(fetch: string -> Exchange<CveBody>): ((string, seq<FileRef>)) -> seq<Option<Record>> {
    (entry: (string, seq<FileRef>)) => SubdirBatch(entry.1, fetch)
  }

  /** `year_processed_files`: the subdirectory batches in subdirectory order. */
  function YearBatch(subdirs: Manifest, fetch: string -> Exchange<CveBody>): seq<Option<Record>> {
    FlatMap(subdirs, EntryBatch(fetch))
  }

  // -------------------------------------------------------------- CSV

  /** A value of a record dictionary: a string, or a list of strings. */
  datatype Cell = Text(text: string) | Items(items: seq<string>)

  type Row = map<string, Cell>

  /** The record as the dictionary `extract_cvedata` returns. */
  function RowOf(r: Record): Row {
    map["cve_id" := Text(r.cveId), "published_date" := Text(r.publishedDate),
        "updated_date" := Text(r.updatedDate), "cisa_kev" := Text(r.cisaKev),
        "cisa_kev_date" := Text(r.cisaKevDate), "cvss_version" := Text(r.cvssVersion),
        "base_score" := Text(r.baseScore), "base_severity" := Text(r.baseSeverity),
        "attack_vector" := Text(r.attackVector), "attack_complexity" := Text(r.attackComplexity),
        "privileges_required" := Text(r.privilegesRequired), "user_interaction" := Text(r.userInteraction),
        "scope" := Text(r.scope), "confidentiality_impact" := Text(r.confidentialityImpact),
        "integrity_impact" := Text(r.integrityImpact), "availability_impact" := Text(r.availabilityImpact),
        "ssvc_timestamp" := Text(r.ssvcTimestamp), "ssvc_exploitation" := Text(r.ssvcExploitation),
        "ssvc_automatable" := Text(r.ssvcAutomatable), "ssvc_technical_impact" := Text(r.ssvcTechnicalImpact),
        "ssvc_decision" := Text(r.ssvcDecision), "impacted_vendor" := Text(r.impactedVendor),
        "impacted_products" := Items(r.impactedProducts), "vulnerable_versions" := Items(r.vulnerableVersions),
        "cwe_number" := Text(r.cweNumber), "cwe_description" := Text(r.cweDescription)]
  }

  /** `if isinstance(row.get(key), list): row[key] = ','.join(row[key])`. */
  function JoinField(row: Row, key: string): Row {
    if key in row && row[key].Items? then row[key := Text(Join(row[key].items, ','))] else row
  }

  function JoinListFields(row: Row): Row {
    JoinField(JoinField(row, "impacted_products"), "vulnerable_versions")
  }

  /** The index of the first None of the batch, or its length. */
  function FirstMissing(rows: seq<Option<Row>>): (k: nat)
    ensures k <= |rows|
    ensures forall i :: 0 <= i < k ==> rows[i].Some?
    ensures k < |rows| ==> rows[k].None?
    decreases |rows|
  {
    if rows == [] then 0
    else if rows[0].None? then 0
    else 1 + FirstMissing(rows[1..])
  }

  /** The `year_to_csv` loop, rewriting the batch in place. A None entry
      makes `.get` raise: the rows before it are already rewritten, the
      rest are not, and no file is written. */
  method YearToCsv(rows: array<Option<Row>>) returns (written: bool)
    modifies rows
    ensures written <==> FirstMissing(old(rows[..])) == rows.Length
    ensures forall i :: 0 <= i < FirstMissing(old(rows[..])) ==>
      rows[i] == Some(JoinListFields(old(rows[i]).value))
    ensures forall i :: FirstMissing(old(rows[..])) <= i < rows.Length ==> rows[i] == old(rows[i])
  {
    ghost var before := rows[..];
    for i := 0 to rows.Length
      invariant forall k :: 0 <= k < i ==> before[k].Some? && rows[k] == Some(JoinListFields(before[k].value))
      invariant forall k :: i <= k < rows.Length ==> rows[k] == before[k]
      invariant i <= FirstMissing(before)
    {
      if rows[i].None? {
        assert FirstMissing(before) == i;
        return false;
      }
      assert before[i].Some?;
      var row := rows[i].value;
      if "impacted_products" in row && row["impacted_products"].Items? {
        row := row["impacted_products" := Text(Join(row["impacted_products"].items, ','))];
      }
      if "vulnerable_versions" in row && row["vulnerable_versions"].Items? {
        row := row["vulnerable_versions" := Text(Join(row["vulnerable_versions"].items, ','))];
      }
      rows[i] := Some(row);
    }
    written := true;
  }

  /** The CSV rows written for a batch, if any are. */
  function CsvRows(batch: seq<Option<Record>>): Option<seq<Row>> {
    if forall i :: 0 <= i < |batch| ==> batch[i].Some? then
      Some(seq(|batch|, i requires 0 <= i < |batch| && batch[i].Some? => JoinListFields(RowOf(batch[i].value))))
    else None
  }

  /** `extract_store_cve_data`: downloads and normalises every file of
      every subdirectory and, in local mode with a non-empty batch, hands
      the batch to `year_to_csv`. Returns the constant 0, the batch, and
      the rows of the CSV file when one is written. */
  method ExtractStoreCveData(yd: YearData, fetch: string -> Exchange<CveBody>, isLocal: bool)
    returns (filesWritten: int, batch: seq<Option<Record>>, csv: Option<seq<Row>>)
    ensures filesWritten == 0
    ensures batch == YearBatch(yd.subdirs, fetch)
    ensures csv == (if isLocal && batch != [] then CsvRows(batch) else None)
  {
    filesWritten := 0;
    var yearProcessed: seq<Option<Record>> := [];
    var subdirs := yd.subdirs;
    for i := 0 to |subdirs|
      invariant yearProcessed == YearBatch(subdirs[..i], fetch)
    {
      assert subdirs[..i + 1][..i] == subdirs[..i];
      var subdirProcessed := ProcessSubdir(subdirs[i].1, fetch);
      if subdirProcessed != [] {
        yearProcessed := yearProcessed + subdirProcessed;
      }
    }
    assert subdirs[..|subdirs|] == subdirs;
    batch := yearProcessed;
    csv := None;
    if batch != [] && isLocal {
      csv := WriteCsv(batch);
    }
  }

  /** The inner loop over one subdirectory's files. */
  method ProcessSubdir(files: seq<FileRef>, fetch: string -> Exchange<CveBody>)
    returns (processed: seq<Option<Record>>)
    ensures processed == SubdirBatch(files, fetch)
  {
    processed := [];
    for j := 0 to |files|
      invariant processed == SubdirBatch(files[..j], fetch)
    {
      assert files[..j + 1][..j] == files[..j];
      var records := DownloadRecord(fetch(files[j].downloadUrl));
      processed := processed + records;
    }
    assert files[..|files|] == files;
  }

  /** `year_to_csv` on the batch: the rows of the file, or None when a
      None record stops it. */
  method WriteCsv(batch: seq<Option<Record>>) returns (csv: Option<seq<Row>>)
    ensures csv == CsvRows(batch)
  {
    var rows := new Option<Row>[|batch|](i requires 0 <= i < |batch| =>
      if batch[i].Some? then Some(RowOf(batch[i].value)) else None);
    ghost var initial := rows[..];
    var written := YearToCsv(rows);
    if written {
      assert FirstMissing(initial) == |batch|;
      assert forall i :: 0 <= i < |batch| ==> initial[i].Some?;
      assert forall i :: 0 <= i < |batch| ==> initial[i] == (if batch[i].Some? then Some(RowOf(batch[i].value)) else None);
      ghost var expected := CsvRows(batch);
      assert expected.Some?;
      assert RowsOf(rows) == expected.value by {
        forall i | 0 <= i < |batch|
          ensures RowsOf(rows)[i] == expected.value[i]
        {
          assert rows[i] == Some(JoinListFields(initial[i].value));
        }
      }
      csv := Some(RowsOf(rows));
    } else {
      csv := None;
      var k := FirstMissing(initial);
      assert initial[k].None? && batch[k].None?;
    }
  }

  /** One download: the records it appends (zero or one). */
  method DownloadRecord(ex: Exchange<CveBody>) returns (records: seq<Option<Record>>)
    ensures records == FileRecords(ex)
  {
    var response := Fetch(ex).reply;
    records := [];
    if Ok(response) {
      match response.response.body
      case Malformed =>
      case Falsy =>
      case NotAnObject =>
        records := [None];
      case Object(doc) =>
        var record := ExtractCveData(doc);
        records := [record];
    }
  }

  function RowsOf(rows: array<Option<Row>>): seq<Row>
    reads rows
  {
    seq(rows.Length, i requires 0 <= i < rows.Length reads rows => rows[i].GetOr(map[]))
  }
}
