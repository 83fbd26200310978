/** The data the normaliser works on: the subset of a CVE JSON 5.x record
    that `extract_cvedata` reads (every key that may be missing is an
    `Option`, every list that may be missing is a `seq` that is then empty),
    the 26-field normalised record, and the mutable template that the
    extractor fills in place. */
module CveRecord {
  import opened Wrappers

  // ---------------------------------------------------------------- input

  datatype Metadata = Metadata(
    cveId: Option<string>,
    datePublished: Option<string>,
    dateUpdated: Option<string>)

  /** The four CVSS metric-block keys the extractor recognises. */
  datatype CvssKey = CvssV4_0 | CvssV3_1 | CvssV3_0 | CvssV2_0

  /** A `cvssV*` object. `baseScore` is carried as opaque text: the pipeline
      copies it and never computes with it. */
  datatype CvssBlock = CvssBlock(
    version: Option<string>,
    baseSeverity: Option<string>,
    baseScore: Option<string>,
    vectorString: Option<string>,
    attackVector: Option<string>,
    attackComplexity: Option<string>,
    privilegesRequired: Option<string>,
    userInteraction: Option<string>,
    scope: Option<string>,
    confidentialityImpact: Option<string>,
    integrityImpact: Option<string>,
    availabilityImpact: Option<string>)

  /** One entry of an SSVC `options` list, e.g. `{"Exploitation": "poc"}`. */
  datatype SsvcOption = SsvcOption(
    exploitation: Option<string>,
    automatable: Option<string>,
    technicalImpact: Option<string>)

  /** The `content` object of an `other` block (SSVC or KEV payload). */
  datatype OtherContent = OtherContent(
    timestamp: Option<string>,
    options: seq<SsvcOption>,
    dateAdded: Option<string>)

  /** An `other` block: its `type` tag and its optional `content`. */
  datatype OtherBlock = OtherBlock(kind: Option<string>, content: Option<OtherContent>)

  /** One entry of a `metrics` list: the CVSS blocks it holds, by key, and
      its optional `other` block. */
  datatype Metric = Metric(cvss: map<CvssKey, CvssBlock>, other: Option<OtherBlock>)

  datatype Description = Description(kind: Option<string>, cweId: Option<string>, text: Option<string>)

  datatype ProblemType = ProblemType(descriptions: seq<Description>)

  datatype VersionItem = VersionItem(version: Option<string>)

  datatype AffectedItem = AffectedItem(
    vendor: Option<string>,
    product: Option<string>,
    versions: seq<VersionItem>)

  /** An `adp` entry or the `cna` container. */
  datatype Container = Container(
    title: Option<string>,
    metrics: seq<Metric>,
    problemTypes: seq<ProblemType>,
    affected: seq<AffectedItem>)

  datatype Containers = Containers(adp: seq<Container>, cna: Option<Container>)

  datatype Document = Document(cveMetadata: Option<Metadata>, containers: Option<Containers>)

  // --------------------------------------------------------------- output

  /** The normalised record, one field per key of the template and per
      column of the warehouse tables. */
  datatype Record = Record(
    cveId: string,
    publishedDate: string,
    updatedDate: string,
    cisaKev: string,
    cisaKevDate: string,
    cvssVersion: string,
    baseScore: string,
    baseSeverity: string,
    attackVector: string,
    attackComplexity: string,
    privilegesRequired: string,
    userInteraction: string,
    scope: string,
    confidentialityImpact: string,
    integrityImpact: string,
    availabilityImpact: string,
    ssvcTimestamp: string,
    ssvcExploitation: string,
    ssvcAutomatable: string,
    ssvcTechnicalImpact: string,
    ssvcDecision: string,
    impactedVendor: string,
    impactedProducts: seq<string>,
    vulnerableVersions: seq<string>,
    cweNumber: string,
    cweDescription: string)

  /** The template every extraction starts from: all empty, `cisa_kev` FALSE. */
  const Template: Record := Record(
    "", "", "", "FALSE", "", "", "", "", "", "", "", "", "", "", "", "",
    "", "", "", "", "", "", [], [], "", "")

  /** True when `b` agrees with `a` outside the eight CVSS sub-metrics. */
  predicate SameOutsideSubMetrics(a: Record, b: Record) {
    a.(attackVector := b.attackVector, attackComplexity := b.attackComplexity,
       privilegesRequired := b.privilegesRequired, userInteraction := b.userInteraction,
       scope := b.scope, confidentialityImpact := b.confidentialityImpact,
       integrityImpact := b.integrityImpact, availabilityImpact := b.availabilityImpact) == b
  }

  /** The template dictionary, which `extract_cvedata` and
      `vector_string_to_metrics` update key by key. Its key set never
      changes, so its contents are one `Record` value; writing a key is
      replacing that value by an update of one field. */
  class CveEntry {
    var value: Record

    constructor ()
      ensures value == Template
    {
      value := Template;
    }
  }
}
