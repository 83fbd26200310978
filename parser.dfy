/** The record extractor `extract_cvedata`: it walks one CVE JSON 5.x
    document and fills the 26-field template, first from the last ADP
    container titled "CISA ADP Vulnrichment", then from the `cna`
    container. The functions below say what every stage leaves in the
    template; the methods do the same work in place on a `CveEntry`, loop
    by loop, and are proved to agree with them. */
module Parser {
  import opened Wrappers
  import opened Strings
  import opened CveRecord
  import opened Ssvc
  import opened VectorString

  const VulnrichmentTitle: string := "CISA ADP Vulnrichment"

  // ------------------------------------------------- CVSS version choice

  /** Position in the preference list `cvssV4_0, cvssV3_1, cvssV3_0, cvssV2_0`. */
  function Rank(k: CvssKey): nat {
    match k
    case CvssV4_0 => 0
    case CvssV3_1 => 1
    case CvssV3_0 => 2
    case CvssV2_0 => 3
  }

  /** `next(v for v in valid_versions if v in found, None)`: the most
      preferred key present. */
  function FirstPreferred(found: set<CvssKey>): (r: Option<CvssKey>)
    ensures r.None? <==> found == {}
    ensures r.Some? ==> r.value in found && forall k :: k in found ==> Rank(r.value) <= Rank(k)
  {
    if CvssV4_0 in found then Some(CvssV4_0)
    else if CvssV3_1 in found then Some(CvssV3_1)
    else if CvssV3_0 in found then Some(CvssV3_0)
    else if CvssV2_0 in found then Some(CvssV2_0)
    else
      assert forall k :: k in found ==> k.CvssV4_0? || k.CvssV3_1? || k.CvssV3_0? || k.CvssV2_0?;
      None
  }

  // ------------------------------------------------------ one CVSS block

  /** Version, severity and score are always written (`''` when absent);
      each sub-metric only when its key is present. */
  function CopyCvss(t: Record, b: CvssBlock): Record {
    t.(cvssVersion := b.version.GetOr(""),
       baseSeverity := b.baseSeverity.GetOr(""),
       baseScore := b.baseScore.GetOr(""),
       attackVector := b.attackVector.GetOr(t.attackVector),
       attackComplexity := b.attackComplexity.GetOr(t.attackComplexity),
       integrityImpact := b.integrityImpact.GetOr(t.integrityImpact),
       availabilityImpact := b.availabilityImpact.GetOr(t.availabilityImpact),
       confidentialityImpact := b.confidentialityImpact.GetOr(t.confidentialityImpact),
       privilegesRequired := b.privilegesRequired.GetOr(t.privilegesRequired),
       userInteraction := b.userInteraction.GetOr(t.userInteraction),
       scope := b.scope.GetOr(t.scope))
  }

  /** The template keys of the eight sub-metrics, in the order of `SubMetrics`. */
  const SubMetricNames: seq<string> := ["attack_vector", "attack_complexity",
    "privileges_required", "user_interaction", "scope", "confidentiality_impact",
    "integrity_impact", "availability_impact"]

  /** `missing_metrics`: the names whose value is empty, in order. */
  function MissingNames(values: seq<string>, names: seq<string>): seq<string>
    requires |values| == |names|
    decreases |values|
  {
    if values == [] then []
    else
      var n := |values| - 1;
      MissingNames(values[..n], names[..n]) + (if values[n] == "" then [names[n]] else [])
  }

  function Missing(t: Record): seq<string> {
    MissingNames(SubMetrics(t), SubMetricNames)
  }

  /** A copied block, completed from its vector string when a sub-metric is
      still empty afterwards; `vector_string_to_metrics` is only called on
      a non-empty string, and on "" it would change nothing either. */
  function CvssFill(t: Record, b: CvssBlock): Record {
    var c := CopyCvss(t, b);
    if Missing(c) != [] then ApplyVector(c, b.vectorString.GetOr("")) else c
  }

  // --------------------------------------------------------- other blocks

  /** One SSVC option: each of the three keys is copied when present. */
  function OptionStep(t: Record, o: SsvcOption): Record {
    t.(ssvcExploitation := o.exploitation.GetOr(t.ssvcExploitation),
       ssvcAutomatable := o.automatable.GetOr(t.ssvcAutomatable),
       ssvcTechnicalImpact := o.technicalImpact.GetOr(t.ssvcTechnicalImpact))
  }

  function SsvcOptions(t: Record, os: seq<SsvcOption>): Record
    decreases |os|
  {
    if os == [] then t else SsvcOptions(OptionStep(t, os[0]), os[1..])
  }

  /** The decision is computed only when all three inputs are non-empty. */
  function Decide(t: Record): Record {
    if t.ssvcExploitation != "" && t.ssvcAutomatable != "" && t.ssvcTechnicalImpact != "" then
      t.(ssvcDecision := CalculateSsvcScore(t.ssvcExploitation, t.ssvcAutomatable, t.ssvcTechnicalImpact))
    else t
  }

  function SsvcStep(t: Record, c: OtherContent): Record {
    Decide(SsvcOptions(t.(ssvcTimestamp := c.timestamp.GetOr("")), c.options))
  }

  function KevStep(t: Record, c: OtherContent): Record {
    t.(cisaKev := "TRUE", cisaKevDate := c.dateAdded.GetOr(""))
  }

  /** An `other` block of type `ssvc` or `kev` without `content` makes the
      extractor call `.get` on the default `[]`; the exception is None. */
  function OtherStep(t: Record, o: Option<OtherBlock>): Option<Record> {
    match o
    case None => Some(t)
    case Some(ob) =>
      if ob.kind == Some("ssvc") then
        (match ob.content
         case None => None
         case Some(c) => Some(SsvcStep(t, c)))
      else if ob.kind == Some("kev") then
        (match ob.content
         case None => None
         case Some(c) => Some(KevStep(t, c)))
      else Some(t)
  }

  // --------------------------------------------------------- ADP metrics

  /** The template plus `all_versions_found`, the keys seen so far. */
  datatype Scan = Scan(rec: Record, found: set<CvssKey>)

  /** One metric of the ADP loop. The version key is chosen over all keys
      seen so far, this metric's included; when the metric holds that key
      its block is copied, and if a sub-metric is then still empty the
      vector string fills in and the `other` block is skipped (`continue`). */
  function AdpMetricStep(s: Scan, m: Metric): Option<Scan> {
    var found := s.found + m.cvss.Keys;
    var vk := FirstPreferred(found);
    if vk.Some? && vk.value in m.cvss then
      var c := CopyCvss(s.rec, m.cvss[vk.value]);
      if Missing(c) != [] then Some(Scan(CvssFill(s.rec, m.cvss[vk.value]), found))
      else
        match OtherStep(c, m.other)
        case None => None
        case Some(u) => Some(Scan(u, found))
    else
      match OtherStep(s.rec, m.other)
      case None => None
      case Some(u) => Some(Scan(u, found))
  }

  function AdpMetrics(s: Scan, ms: seq<Metric>): Option<Scan>
    decreases |ms|
  {
    if ms == [] then Some(s)
    else
      match AdpMetricStep(s, ms[0])
      case None => None
      case Some(s') => AdpMetrics(s', ms[1..])
  }

  // ----------------------------------------------------- problem types

  /** The first description typed `CWE`: the inner loop breaks there. */
  function FirstCwe(ds: seq<Description>): Option<Description>
    decreases |ds|
  {
    if ds == [] then None
    else if ds[0].kind == Some("CWE") then Some(ds[0])
    else FirstCwe(ds[1..])
  }

  function CweStep(t: Record, p: ProblemType): Record {
    match FirstCwe(p.descriptions)
    case None => t
    case Some(d) => t.(cweNumber := d.cweId.GetOr(""), cweDescription := d.text.GetOr(""))
  }

  function ProblemTypesFrom(t: Record, ps: seq<ProblemType>): Record
    decreases |ps|
  {
    if ps == [] then t else ProblemTypesFrom(CweStep(t, ps[0]), ps[1..])
  }

  // ---------------------------------------------------------- affected

  function VersionsOf(vs: seq<VersionItem>): (r: seq<string>)
    ensures |r| == |vs|
    ensures forall i :: 0 <= i < |vs| ==> r[i] == vs[i].version.GetOr("")
  {
    seq(|vs|, i requires 0 <= i < |vs| => vs[i].version.GetOr(""))
  }

  /** The vendor is overwritten; the product and the versions are appended. */
  function AffectedStep(t: Record, a: AffectedItem): Record {
    t.(impactedVendor := a.vendor.GetOr(""),
       impactedProducts := t.impactedProducts + [a.product.GetOr("")],
       vulnerableVersions := t.vulnerableVersions + VersionsOf(a.versions))
  }

  function AffectedFrom(t: Record, items: seq<AffectedItem>): Record
    decreases |items|
  {
    if items == [] then t else AffectedFrom(AffectedStep(t, items[0]), items[1..])
  }

  // -------------------------------------------------------- containers

  /** The ADP loop keeps the last container with the Vulnrichment title. */
  function LastVulnrichment(adps: seq<Container>): Option<Container>
    decreases |adps|
  {
    if adps == [] then None
    else if adps[|adps| - 1].title == Some(VulnrichmentTitle) then Some(adps[|adps| - 1])
    else LastVulnrichment(adps[..|adps| - 1])
  }

  function AdpContainer(t: Record, c: Container): Option<Record> {
    match AdpMetrics(Scan(t, {}), c.metrics)
    case None => None
    case Some(s) => Some(AffectedFrom(ProblemTypesFrom(s.rec, c.problemTypes), c.affected))
  }

  /** After the ADP stage: failed, or the template and whether
      `all_versions_found` was ever bound (the chosen container had a
      non-empty metrics list). */
  datatype AdpOutcome = AdpFailed | AdpDone(rec: Record, versionsBound: bool)

  function AdpPart(t: Record, adps: seq<Container>): AdpOutcome {
    match LastVulnrichment(adps)
    case None => AdpDone(t, false)
    case Some(c) =>
      match AdpContainer(t, c)
      case None => AdpFailed
      case Some(u) => AdpDone(u, c.metrics != [])
  }

  /** `all_versions_found1`: the CVSS keys of all CNA metrics. */
  function CnaVersions(ms: seq<Metric>): set<CvssKey>
    decreases |ms|
  {
    if ms == [] then {} else CnaVersions(ms[..|ms| - 1]) + ms[|ms| - 1].cvss.Keys
  }

  /** Every CNA metric holding the chosen key is copied, in order. */
  function CnaMetricStep(t: Record, key: Option<CvssKey>, m: Metric): Record {
    if key.Some? && key.value in m.cvss then CvssFill(t, m.cvss[key.value]) else t
  }

  function CnaMetrics(t: Record, key: Option<CvssKey>, ms: seq<Metric>): Record
    decreases |ms|
  {
    if ms == [] then t else CnaMetrics(CnaMetricStep(t, key, ms[0]), key, ms[1..])
  }

  /** The CNA stage: affected entries, then metrics, then problem types. A
      non-empty metrics list whose first entry reaches the log line naming
      `all_versions_found` fails when the ADP metrics loop never bound it. */
  function CnaPart(t: Record, c: Container, versionsBound: bool): Option<Record> {
    var u := AffectedFrom(t, c.affected);
    if c.metrics != [] && !versionsBound then None
    else Some(ProblemTypesFrom(CnaMetrics(u, FirstPreferred(CnaVersions(c.metrics)), c.metrics), c.problemTypes))
  }

  function WithMetadata(t: Record, md: Option<Metadata>): Record {
    var m := md.GetOr(Metadata(None, None, None));
    t.(cveId := m.cveId.GetOr(""), publishedDate := m.datePublished.GetOr(""),
       updatedDate := m.dateUpdated.GetOr(""))
  }

  /** What `extract_cvedata` returns for a document. */
  function ExtractCve(doc: Document): Option<Record> {
    var t := WithMetadata(Template, doc.cveMetadata);
    var cs := doc.containers.GetOr(Containers([], None));
    match AdpPart(t, cs.adp)
    case AdpFailed => None
    case AdpDone(u, bound) =>
      match cs.cna
      case None => None
      case Some(c) => CnaPart(u, c, bound)
  }

  // ============================================================ methods

  /** The extractor: a fresh template, filled in place, returned on success. */
  method ExtractCveData(doc: Document) returns (r: Option<Record>)
    ensures r == ExtractCve(doc)
  {
    var e := new CveEntry();
    WriteMetadata(e, doc.cveMetadata);
    var cs := doc.containers.GetOr(Containers([], None));
    var chosen := FindVulnrichment(cs.adp);
    var bound := false;
    if chosen.Some? {
      var ok := ProcessAdp(e, chosen.value);
      if !ok {
        return None;
      }
      bound := chosen.value.metrics != [];
    }
    if cs.cna.None? {
      // the function falls off its end
      return None;
    }
    var ok := ProcessCna(e, cs.cna.value, bound);
    if !ok {
      return None;
    }
    r := Some(e.value);
  }

  method WriteMetadata(e: CveEntry, md: Option<Metadata>)
    modifies e
    ensures e.value == WithMetadata(old(e.value), md)
  {
    var m := md.GetOr(Metadata(None, None, None));
    e.value := e.value.(cveId := m.cveId.GetOr(""));
    e.value := e.value.(publishedDate := m.datePublished.GetOr(""));
    e.value := e.value.(updatedDate := m.dateUpdated.GetOr(""));
  }

  method FindVulnrichment(adps: seq<Container>) returns (chosen: Option<Container>)
    ensures chosen == LastVulnrichment(adps)
  {
    chosen := None;
    for i := 0 to |adps|
      invariant chosen == LastVulnrichment(adps[..i])
    {
      assert adps[..i + 1][..i] == adps[..i];
      if adps[i].title == Some(VulnrichmentTitle) {
        chosen := Some(adps[i]);
      }
    }
    assert adps[..|adps|] == adps;
  }

  method ProcessAdp(e: CveEntry, c: Container) returns (ok: bool)
    modifies e
    ensures ok == AdpContainer(old(e.value), c).Some?
    ensures ok ==> e.value == AdpContainer(old(e.value), c).value
  {
    ok := ScanAdpMetrics(e, c.metrics);
    if !ok {
      return;
    }
    ProcessProblemTypes(e, c.problemTypes);
    ProcessAffected(e, c.affected);
  }

  method ScanAdpMetrics(e: CveEntry, ms: seq<Metric>) returns (ok: bool)
    modifies e
    ensures ok == AdpMetrics(Scan(old(e.value), {}), ms).Some?
    ensures ok ==> e.value == AdpMetrics(Scan(old(e.value), {}), ms).value.rec
  {
    ghost var t0 := e.value;
    var found: set<CvssKey> := {};
    for i := 0 to |ms|
      invariant AdpMetrics(Scan(t0, {}), ms) == AdpMetrics(Scan(e.value, found), ms[i..])
    {
      var m := ms[i];
      assert ms[i..][0] == m && ms[i..][1..] == ms[i + 1..];
      ghost var before := Scan(e.value, found);
      found := found + m.cvss.Keys;
      var vk := FirstPreferred(found);
      if vk.Some? && vk.value in m.cvss {
        var b := m.cvss[vk.value];
        CopyCvssInto(e, b);
        var missing := MissingMetrics(e.value);
        if missing != [] {
          var vs := b.vectorString.GetOr("");
          if vs != "" {
            var same := VectorStringToMetrics(e, vs);
          }
          assert AdpMetricStep(before, m) == Some(Scan(e.value, found));
          continue;
        }
      }
      ok := ProcessOther(e, m.other);
      if !ok {
        return;
      }
      assert AdpMetricStep(before, m) == Some(Scan(e.value, found));
    }
    ok := true;
  }

  method CopyCvssInto(e: CveEntry, b: CvssBlock)
    modifies e
    ensures e.value == CopyCvss(old(e.value), b)
  {
    e.value := e.value.(cvssVersion := b.version.GetOr(""));
    e.value := e.value.(baseSeverity := b.baseSeverity.GetOr(""));
    e.value := e.value.(baseScore := b.baseScore.GetOr(""));
    CopyImpactsInto(e, b);
    CopyConditionsInto(e, b);
  }

  /** "Extract individual metrics if available", the exploitability half. */
  method CopyConditionsInto(e: CveEntry, b: CvssBlock)
    modifies e
    ensures e.value == old(e.value).(
      attackVector := b.attackVector.GetOr(old(e.value).attackVector),
      attackComplexity := b.attackComplexity.GetOr(old(e.value).attackComplexity),
      privilegesRequired := b.privilegesRequired.GetOr(old(e.value).privilegesRequired),
      userInteraction := b.userInteraction.GetOr(old(e.value).userInteraction),
      scope := b.scope.GetOr(old(e.value).scope))
  {
    if b.attackVector.Some? {
      e.value := e.value.(attackVector := b.attackVector.value);
    }
    if b.attackComplexity.Some? {
      e.value := e.value.(attackComplexity := b.attackComplexity.value);
    }
    if b.privilegesRequired.Some? {
      e.value := e.value.(privilegesRequired := b.privilegesRequired.value);
    }
    if b.userInteraction.Some? {
      e.value := e.value.(userInteraction := b.userInteraction.value);
    }
    if b.scope.Some? {
      e.value := e.value.(scope := b.scope.value);
    }
  }

  /** "Extract individual metrics if available", the impact half. */
  method CopyImpactsInto(e: CveEntry, b: CvssBlock)
    modifies e
    ensures e.value == old(e.value).(
      integrityImpact := b.integrityImpact.GetOr(old(e.value).integrityImpact),
      availabilityImpact := b.availabilityImpact.GetOr(old(e.value).availabilityImpact),
      confidentialityImpact := b.confidentialityImpact.GetOr(old(e.value).confidentialityImpact))
  {
    if b.integrityImpact.Some? {
      e.value := e.value.(integrityImpact := b.integrityImpact.value);
    }
    if b.availabilityImpact.Some? {
      e.value := e.value.(availabilityImpact := b.availabilityImpact.value);
    }
    if b.confidentialityImpact.Some? {
      e.value := e.value.(confidentialityImpact := b.confidentialityImpact.value);
    }
  }

  /** The loop that collects `missing_metrics`. */
  method MissingMetrics(t: Record) returns (missing: seq<string>)
    ensures missing == Missing(t)
  {
    var values := SubMetrics(t);
    missing := [];
    for i := 0 to 8
      invariant missing == MissingNames(values[..i], SubMetricNames[..i])
    {
      assert values[..i + 1][..i] == values[..i];
      assert SubMetricNames[..i + 1][..i] == SubMetricNames[..i];
      if values[i] == "" {
        missing := missing + [SubMetricNames[i]];
      }
    }
    assert values[..8] == values && SubMetricNames[..8] == SubMetricNames;
  }

  method ProcessOther(e: CveEntry, o: Option<OtherBlock>) returns (ok: bool)
    modifies e
    ensures ok == OtherStep(old(e.value), o).Some?
    ensures ok ==> e.value == OtherStep(old(e.value), o).value
  {
    ok := true;
    if o.None? {
      return;
    }
    var ob := o.value;
    if ob.kind == Some("ssvc") {
      if ob.content.None? {
        ok := false;
        return;
      }
      ProcessSsvc(e, ob.content.value);
    } else if ob.kind == Some("kev") {
      if ob.content.None? {
        ok := false;
        return;
      }
      e.value := e.value.(cisaKev := "TRUE");
      e.value := e.value.(cisaKevDate := ob.content.value.dateAdded.GetOr(""));
    }
  }

  method ProcessSsvc(e: CveEntry, c: OtherContent)
    modifies e
    ensures e.value == SsvcStep(old(e.value), c)
  {
    e.value := e.value.(ssvcTimestamp := c.timestamp.GetOr(""));
    ghost var t1 := e.value;
    var options := c.options;
    for i := 0 to |options|
      invariant SsvcOptions(t1, options) == SsvcOptions(e.value, options[i..])
    {
      assert options[i..][0] == options[i] && options[i..][1..] == options[i + 1..];
      var o := options[i];
      if o.exploitation.Some? {
        e.value := e.value.(ssvcExploitation := o.exploitation.value);
      }
      if o.automatable.Some? {
        e.value := e.value.(ssvcAutomatable := o.automatable.value);
      }
      if o.technicalImpact.Some? {
        e.value := e.value.(ssvcTechnicalImpact := o.technicalImpact.value);
      }
    }
    var t := e.value;
    if t.ssvcExploitation != "" && t.ssvcAutomatable != "" && t.ssvcTechnicalImpact != "" {
      e.value := e.value.(ssvcDecision := CalculateSsvcScore(t.ssvcExploitation, t.ssvcAutomatable, t.ssvcTechnicalImpact));
    }
  }

  method ProcessProblemTypes(e: CveEntry, ps: seq<ProblemType>)
    modifies e
    ensures e.value == ProblemTypesFrom(old(e.value), ps)
  {
    ghost var t0 := e.value;
    for i := 0 to |ps|
      invariant ProblemTypesFrom(t0, ps) == ProblemTypesFrom(e.value, ps[i..])
    {
      assert ps[i..][0] == ps[i] && ps[i..][1..] == ps[i + 1..];
      var descs := ps[i].descriptions;
      ghost var before := e.value;
      var j := 0;
      while j < |descs|
        invariant 0 <= j <= |descs|
        invariant e.value == before
        invariant FirstCwe(descs) == FirstCwe(descs[j..])
      {
        assert descs[j..][0] == descs[j] && descs[j..][1..] == descs[j + 1..];
        if descs[j].kind == Some("CWE") {
          e.value := e.value.(cweNumber := descs[j].cweId.GetOr(""), cweDescription := descs[j].text.GetOr(""));
          break;
        }
        j := j + 1;
      }
      assert e.value == CweStep(before, ps[i]);
    }
  }

  method ProcessAffected(e: CveEntry, items: seq<AffectedItem>)
    modifies e
    ensures e.value == AffectedFrom(old(e.value), items)
  {
    ghost var t0 := e.value;
    for i := 0 to |items|
      invariant AffectedFrom(t0, items) == AffectedFrom(e.value, items[i..])
    {
      assert items[i..][0] == items[i] && items[i..][1..] == items[i + 1..];
      var a := items[i];
      ghost var before := e.value;
      e.value := e.value.(impactedVendor := a.vendor.GetOr(""));
      e.value := e.value.(impactedProducts := e.value.impactedProducts + [a.product.GetOr("")]);
      AppendVersions(e, a.versions);
      assert e.value == AffectedStep(before, a);
    }
  }

  /** The inner loop over an affected entry's `versions`. */
  method AppendVersions(e: CveEntry, versions: seq<VersionItem>)
    modifies e
    ensures e.value == old(e.value).(vulnerableVersions := old(e.value).vulnerableVersions + VersionsOf(versions))
  {
    ghost var t0 := e.value;
    for k := 0 to |versions|
      invariant e.value == t0.(vulnerableVersions := t0.vulnerableVersions + VersionsOf(versions[..k]))
    {
      assert VersionsOf(versions[..k + 1]) == VersionsOf(versions[..k]) + [versions[k].version.GetOr("")];
      e.value := e.value.(vulnerableVersions := e.value.vulnerableVersions + [versions[k].version.GetOr("")]);
    }
    assert versions[..|versions|] == versions;
  }

  method ProcessCna(e: CveEntry, c: Container, versionsBound: bool) returns (ok: bool)
    modifies e
    ensures ok == CnaPart(old(e.value), c, versionsBound).Some?
    ensures ok ==> e.value == CnaPart(old(e.value), c, versionsBound).value
  {
    ProcessAffected(e, c.affected);
    var ms := c.metrics;
    var found: set<CvssKey> := {};
    for i := 0 to |ms|
      invariant found == CnaVersions(ms[..i])
      invariant i > 0 ==> versionsBound
    {
      assert ms[..i + 1][..i] == ms[..i];
      found := found + ms[i].cvss.Keys;
      if !versionsBound {
        // the log line names `all_versions_found`: NameError
        ok := false;
        return;
      }
    }
    assert ms[..|ms|] == ms;
    var key := FirstPreferred(found);
    CnaMetricsInto(e, key, ms);
    ProcessProblemTypes(e, c.problemTypes);
    ok := true;
  }

  method CnaMetricsInto(e: CveEntry, key: Option<CvssKey>, ms: seq<Metric>)
    modifies e
    ensures e.value == CnaMetrics(old(e.value), key, ms)
  {
    ghost var t0 := e.value;
    for i := 0 to |ms|
      invariant CnaMetrics(t0, key, ms) == CnaMetrics(e.value, key, ms[i..])
    {
      assert ms[i..][0] == ms[i] && ms[i..][1..] == ms[i + 1..];
      var m := ms[i];
      if key.Some? && key.value in m.cvss {
        var b := m.cvss[key.value];
        CopyCvssInto(e, b);
        var vs := b.vectorString.GetOr("");
        var missing := MissingMetrics(e.value);
        if missing != [] {
          if vs != "" {
            var same := VectorStringToMetrics(e, vs);
          }
        }
      }
    }
  }
}
