/** What `extract_cvedata` promises, proved about the functions of module
    `Parser`: first stage by stage (what each loop leaves in the template),
    then for whole documents. */
module ParserFacts {
  import opened Wrappers
  import opened CveRecord
  import opened Ssvc
  import opened VectorString
  import opened Parser

  // ---------------------------------------------------------- frames

  /** `b` agrees with `a` outside the eleven CVSS columns. */
  predicate SameOutsideCvss(a: Record, b: Record) {
    a.(cvssVersion := b.cvssVersion, baseScore := b.baseScore, baseSeverity := b.baseSeverity,
       attackVector := b.attackVector, attackComplexity := b.attackComplexity,
       privilegesRequired := b.privilegesRequired, userInteraction := b.userInteraction,
       scope := b.scope, confidentialityImpact := b.confidentialityImpact,
       integrityImpact := b.integrityImpact, availabilityImpact := b.availabilityImpact) == b
  }

  /** `b` agrees with `a` outside the CVSS, SSVC and KEV columns: the
      columns a `metrics` list can feed. */
  predicate SameOutsideMetrics(a: Record, b: Record) {
    a.(cvssVersion := b.cvssVersion, baseScore := b.baseScore, baseSeverity := b.baseSeverity,
       attackVector := b.attackVector, attackComplexity := b.attackComplexity,
       privilegesRequired := b.privilegesRequired, userInteraction := b.userInteraction,
       scope := b.scope, confidentialityImpact := b.confidentialityImpact,
       integrityImpact := b.integrityImpact, availabilityImpact := b.availabilityImpact,
       ssvcTimestamp := b.ssvcTimestamp, ssvcExploitation := b.ssvcExploitation,
       ssvcAutomatable := b.ssvcAutomatable, ssvcTechnicalImpact := b.ssvcTechnicalImpact,
       ssvcDecision := b.ssvcDecision, cisaKev := b.cisaKev, cisaKevDate := b.cisaKevDate) == b
  }

  // ---------------------------------------------------- missing_metrics

  lemma {:induction false} MissingNamesEmpty(values: seq<string>, names: seq<string>)
    requires |values| == |names|
    ensures MissingNames(values, names) == [] <==> "" !in values
    decreases |values|
  {
    if values != [] {
      var n := |values| - 1;
      MissingNamesEmpty(values[..n], names[..n]);
      assert values == values[..n] + [values[n]];
    }
  }

  /** `missing_metrics` is empty exactly when no sub-metric field is empty. */
  lemma MissingIffEmptyField(t: Record)
    ensures Missing(t) == [] <==> "" !in SubMetrics(t)
  {
    MissingNamesEmpty(SubMetrics(t), SubMetricNames);
  }

  // ------------------------------------------------------- CVSS blocks

  /** Copying a block writes version, score and severity from the block
      and keeps a sub-metric the block does not carry. */
  lemma CopyCvssFields(t: Record, b: CvssBlock)
    ensures SameOutsideCvss(t, CopyCvss(t, b))
    ensures CopyCvss(t, b).cvssVersion == b.version.GetOr("")
    ensures CopyCvss(t, b).baseScore == b.baseScore.GetOr("")
    ensures CopyCvss(t, b).baseSeverity == b.baseSeverity.GetOr("")
    ensures b.attackVector.None? ==> CopyCvss(t, b).attackVector == t.attackVector
    ensures b.attackComplexity.None? ==> CopyCvss(t, b).attackComplexity == t.attackComplexity
    ensures b.privilegesRequired.None? ==> CopyCvss(t, b).privilegesRequired == t.privilegesRequired
    ensures b.userInteraction.None? ==> CopyCvss(t, b).userInteraction == t.userInteraction
    ensures b.scope.None? ==> CopyCvss(t, b).scope == t.scope
    ensures b.confidentialityImpact.None? ==> CopyCvss(t, b).confidentialityImpact == t.confidentialityImpact
    ensures b.integrityImpact.None? ==> CopyCvss(t, b).integrityImpact == t.integrityImpact
    ensures b.availabilityImpact.None? ==> CopyCvss(t, b).availabilityImpact == t.availabilityImpact
  {
  }

  /** The vector fallback never touches version, score or severity. */
  lemma CvssFillHeadline(t: Record, b: CvssBlock)
    ensures SameOutsideCvss(t, CvssFill(t, b))
    ensures CvssFill(t, b).cvssVersion == b.version.GetOr("")
    ensures CvssFill(t, b).baseScore == b.baseScore.GetOr("")
    ensures CvssFill(t, b).baseSeverity == b.baseSeverity.GetOr("")
  {
    var c := CopyCvss(t, b);
    assert SameOutsideCvss(t, c);
    assert SameOutsideSubMetrics(c, ApplyVector(c, b.vectorString.GetOr("")));
  }

  /** A block carrying all eight sub-metrics, none of them empty, is copied
      as it is, whatever its vector string says. */
  lemma CompleteBlockIgnoresVector(t: Record, b: CvssBlock, vs: Option<string>)
    requires b.attackVector.Some? && b.attackVector.value != ""
    requires b.attackComplexity.Some? && b.attackComplexity.value != ""
    requires b.privilegesRequired.Some? && b.privilegesRequired.value != ""
    requires b.userInteraction.Some? && b.userInteraction.value != ""
    requires b.scope.Some? && b.scope.value != ""
    requires b.confidentialityImpact.Some? && b.confidentialityImpact.value != ""
    requires b.integrityImpact.Some? && b.integrityImpact.value != ""
    requires b.availabilityImpact.Some? && b.availabilityImpact.value != ""
    ensures CvssFill(t, b) == CopyCvss(t, b)
    ensures CvssFill(t, b) == CvssFill(t, b.(vectorString := vs))
  {
    MissingIffEmptyField(CopyCvss(t, b));
    MissingIffEmptyField(CopyCvss(t, b.(vectorString := vs)));
    assert CopyCvss(t, b) == CopyCvss(t, b.(vectorString := vs));
  }

  /** When a sub-metric is still empty after the copy and the block's vector
      string parses, the eight fields come from the vector alone: the
      values the block carried are overwritten. */
  lemma IncompleteBlockTakesVector(t: Record, b: CvssBlock)
    requires "" in SubMetrics(CopyCvss(t, b))
    requires b.vectorString.Some? && b.vectorString.value != ""
    requires ParseVector(b.vectorString.value).Some?
    ensures SubMetrics(CvssFill(t, b)) == SubMetrics(ApplyVector(t, b.vectorString.value))
  {
    MissingIffEmptyField(CopyCvss(t, b));
    var vs := b.vectorString.value;
    forall i | 0 <= i < 8
      ensures SubMetrics(CvssFill(t, b))[i] == SubMetrics(ApplyVector(t, vs))[i]
    {
      ApplyVectorSubMetrics(CopyCvss(t, b), vs, i);
      ApplyVectorSubMetrics(t, vs, i);
    }
  }

  // ------------------------------------------------------- preference

  /** Seeing more keys never makes the chosen version less preferred. */
  lemma PreferenceNeverWorsens(a: set<CvssKey>, b: set<CvssKey>)
    requires a != {}
    ensures FirstPreferred(a + b).Some?
    ensures Rank(FirstPreferred(a + b).value) <= Rank(FirstPreferred(a).value)
  {
    assert FirstPreferred(a).value in a + b;
  }

  /** Once a more preferred version has been seen in an earlier metric, a
      metric holding only less preferred versions contributes no CVSS data:
      only its `other` block is read. */
  lemma EarlierBetterVersionWins(s: Scan, m: Metric, k: CvssKey)
    requires k in s.found
    requires forall k' :: k' in m.cvss ==> Rank(k) < Rank(k')
    ensures AdpMetricStep(s, m) == (match OtherStep(s.rec, m.other)
                                   case None => None
                                   case Some(u) => Some(Scan(u, s.found + m.cvss.Keys)))
  {
    var vk := FirstPreferred(s.found + m.cvss.Keys);
    assert vk.Some? && Rank(vk.value) <= Rank(k);
    assert vk.value !in m.cvss;
  }

  /** A metric whose chosen block leaves a sub-metric empty skips its own
      `other` block (`continue`): the SSVC and KEV data beside it is lost. */
  lemma IncompleteBlockSkipsOther(s: Scan, m: Metric)
    requires FirstPreferred(s.found + m.cvss.Keys).Some?
    requires FirstPreferred(s.found + m.cvss.Keys).value in m.cvss
    requires "" in SubMetrics(CopyCvss(s.rec, m.cvss[FirstPreferred(s.found + m.cvss.Keys).value]))
    ensures AdpMetricStep(s, m) == AdpMetricStep(s, m.(other := None))
    ensures AdpMetricStep(s, m).Some?
  {
    var k := FirstPreferred(s.found + m.cvss.Keys).value;
    MissingIffEmptyField(CopyCvss(s.rec, m.cvss[k]));
  }

  // ------------------------------------------------------ other blocks

  predicate OtherWellFormed(o: Option<OtherBlock>) {
    o.None? || (o.value.kind != Some("ssvc") && o.value.kind != Some("kev")) || o.value.content.Some?
  }

  predicate IsKevBlock(o: Option<OtherBlock>) {
    o.Some? && o.value.kind == Some("kev")
  }

  predicate KevFlag(v: string) {
    v == "TRUE" || v == "FALSE"
  }

  /** An `other` block fails exactly when it is an SSVC or KEV block
      without content; otherwise it writes only SSVC and KEV columns, and
      only a KEV block can raise the flag, which nothing lowers. */
  lemma OtherStepEffect(t: Record, o: Option<OtherBlock>)
    ensures OtherStep(t, o).Some? <==> OtherWellFormed(o)
    ensures OtherStep(t, o).Some? ==> SameOutsideMetrics(t, OtherStep(t, o).value)
    ensures OtherStep(t, o).Some? && KevFlag(t.cisaKev) ==> KevFlag(OtherStep(t, o).value.cisaKev)
    ensures OtherStep(t, o).Some? && t.cisaKev == "TRUE" ==> OtherStep(t, o).value.cisaKev == "TRUE"
    ensures OtherStep(t, o).Some? && OtherStep(t, o).value.cisaKev == "TRUE" ==> t.cisaKev == "TRUE" || IsKevBlock(o)
    ensures OtherStep(t, o).Some? && IsKevBlock(o) ==> OtherStep(t, o).value.cisaKev == "TRUE"
    ensures OtherStep(t, o).Some? && IsKevBlock(o) ==>
      OtherStep(t, o).value.cisaKevDate == o.value.content.value.dateAdded.GetOr("")
    ensures OtherStep(t, o).Some? && !IsKevBlock(o) ==>
      OtherStep(t, o).value.cisaKev == t.cisaKev && OtherStep(t, o).value.cisaKevDate == t.cisaKevDate
  {
    if o.Some? && o.value.kind == Some("ssvc") && o.value.content.Some? {
      SsvcStepEffect(t, o.value.content.value);
    }
  }

  // ---------------------------------------------------------------- SSVC

  /** The last option that carries a key gives its value. */
  function LastGiven(vals: seq<Option<string>>): Option<string>
    decreases |vals|
  {
    if vals == [] then None
    else
      match LastGiven(vals[1..])
      case Some(v) => Some(v)
      case None => vals[0]
  }

  function Exploitations(os: seq<SsvcOption>): (r: seq<Option<string>>)
    ensures |r| == |os| && forall i :: 0 <= i < |os| ==> r[i] == os[i].exploitation
  {
    seq(|os|, i requires 0 <= i < |os| => os[i].exploitation)
  }

  function Automatables(os: seq<SsvcOption>): (r: seq<Option<string>>)
    ensures |r| == |os| && forall i :: 0 <= i < |os| ==> r[i] == os[i].automatable
  {
    seq(|os|, i requires 0 <= i < |os| => os[i].automatable)
  }

  function TechnicalImpacts(os: seq<SsvcOption>): (r: seq<Option<string>>)
    ensures |r| == |os| && forall i :: 0 <= i < |os| ==> r[i] == os[i].technicalImpact
  {
    seq(|os|, i requires 0 <= i < |os| => os[i].technicalImpact)
  }

  /** Over the `options` list each of the three SSVC inputs is last-wins,
      and a key no option carries keeps its earlier value. */
  lemma {:induction false} SsvcOptionsLastWins(t: Record, os: seq<SsvcOption>)
    ensures SsvcOptions(t, os) == t.(
      ssvcExploitation := LastGiven(Exploitations(os)).GetOr(t.ssvcExploitation),
      ssvcAutomatable := LastGiven(Automatables(os)).GetOr(t.ssvcAutomatable),
      ssvcTechnicalImpact := LastGiven(TechnicalImpacts(os)).GetOr(t.ssvcTechnicalImpact))
    decreases |os|
  {
    if os != [] {
      var u := OptionStep(t, os[0]);
      SsvcOptionsLastWins(u, os[1..]);
      assert Exploitations(os)[1..] == Exploitations(os[1..]);
      assert Automatables(os)[1..] == Automatables(os[1..]);
      assert TechnicalImpacts(os)[1..] == TechnicalImpacts(os[1..]);
    }
  }

  /** An SSVC block sets the timestamp and the three inputs, and sets the
      decision, to the decision table's label for those inputs, exactly
      when all three are non-empty; otherwise the decision is kept. */
  lemma SsvcStepEffect(t: Record, c: OtherContent)
    ensures var u := SsvcStep(t, c);
      && u.ssvcTimestamp == c.timestamp.GetOr("")
      && u.ssvcExploitation == LastGiven(Exploitations(c.options)).GetOr(t.ssvcExploitation)
      && u.ssvcAutomatable == LastGiven(Automatables(c.options)).GetOr(t.ssvcAutomatable)
      && u.ssvcTechnicalImpact == LastGiven(TechnicalImpacts(c.options)).GetOr(t.ssvcTechnicalImpact)
      && (if u.ssvcExploitation != "" && u.ssvcAutomatable != "" && u.ssvcTechnicalImpact != ""
          then u.ssvcDecision == CalculateSsvcScore(u.ssvcExploitation, u.ssvcAutomatable, u.ssvcTechnicalImpact)
          else u.ssvcDecision == t.ssvcDecision)
      && SameOutsideMetrics(t, u)
      && u.cisaKev == t.cisaKev
      && u.cisaKevDate == t.cisaKevDate
  {
    SsvcOptionsLastWins(t.(ssvcTimestamp := c.timestamp.GetOr("")), c.options);
  }

  // ------------------------------------------------------- ADP metrics

  /** Every step of the ADP loop adds its metric's keys to the seen set,
      fails only on a malformed `other` block it actually reads, and keeps
      the KEV facts of `OtherStepEffect`. */
  lemma AdpMetricStepEffect(s: Scan, m: Metric)
    ensures OtherWellFormed(m.other) ==> AdpMetricStep(s, m).Some?
    ensures AdpMetricStep(s, m).Some? ==>
      var s' := AdpMetricStep(s, m).value;
      && s'.found == s.found + m.cvss.Keys
      && SameOutsideMetrics(s.rec, s'.rec)
      && (KevFlag(s.rec.cisaKev) ==> KevFlag(s'.rec.cisaKev))
      && (s.rec.cisaKev == "TRUE" ==> s'.rec.cisaKev == "TRUE")
      && (s'.rec.cisaKev == "TRUE" ==> s.rec.cisaKev == "TRUE" || IsKevBlock(m.other))
      && (!IsKevBlock(m.other) ==> s'.rec.cisaKevDate == s.rec.cisaKevDate)
  {
    var found := s.found + m.cvss.Keys;
    var vk := FirstPreferred(found);
    if vk.Some? && vk.value in m.cvss {
      var b := m.cvss[vk.value];
      var c := CopyCvss(s.rec, b);
      CopyCvssFields(s.rec, b);
      CvssFillHeadline(s.rec, b);
      OtherStepEffect(c, m.other);
    } else {
      OtherStepEffect(s.rec, m.other);
    }
  }

  /** Over the whole ADP metrics list: well-formed `other` blocks never
      fail, only CVSS, SSVC and KEV columns change, `cisa_kev` stays TRUE
      or FALSE and is TRUE only if it was or some metric has a KEV block;
      the seen set ends as the union of all keys. */
  lemma {:induction false} AdpMetricsEffect(s: Scan, ms: seq<Metric>)
    ensures (forall i :: 0 <= i < |ms| ==> OtherWellFormed(ms[i].other)) ==> AdpMetrics(s, ms).Some?
    ensures AdpMetrics(s, ms).Some? ==>
      var s' := AdpMetrics(s, ms).value;
      && SameOutsideMetrics(s.rec, s'.rec)
      && (KevFlag(s.rec.cisaKev) ==> KevFlag(s'.rec.cisaKev))
      && (s.rec.cisaKev == "TRUE" ==> s'.rec.cisaKev == "TRUE")
      && (s'.rec.cisaKev == "TRUE" ==> s.rec.cisaKev == "TRUE" || exists i :: 0 <= i < |ms| && IsKevBlock(ms[i].other))
    decreases |ms|
  {
    if ms != [] {
      AdpMetricStepEffect(s, ms[0]);
      var step := AdpMetricStep(s, ms[0]);
      if step.Some? {
        AdpMetricsEffect(step.value, ms[1..]);
        assert forall i :: 0 <= i < |ms[1..]| ==> ms[1..][i] == ms[i + 1];
      }
    }
  }

  /** The metric's `other` block is read: the metric holds no chosen
      version key, or the block copied for it leaves no sub-metric empty,
      so the `continue` is not taken. */
  predicate OtherReached(s: Scan, m: Metric) {
    var k := FirstPreferred(s.found + m.cvss.Keys);
    k.None? || k.value !in m.cvss || Missing(CopyCvss(s.rec, m.cvss[k.value])) == []
  }

  /** A KEV block with content that the loop reaches sets `cisa_kev` to
      TRUE and `cisa_kev_date` to its `dateAdded` (or ""). */
  lemma KevStepRead(s: Scan, m: Metric, c: OtherContent)
    requires m.other == Some(OtherBlock(Some("kev"), Some(c)))
    requires OtherReached(s, m)
    ensures AdpMetricStep(s, m).Some?
    ensures AdpMetricStep(s, m).value.rec.cisaKev == "TRUE"
    ensures AdpMetricStep(s, m).value.rec.cisaKevDate == c.dateAdded.GetOr("")
  {
    var k := FirstPreferred(s.found + m.cvss.Keys);
    if k.Some? && k.value in m.cvss {
      OtherStepEffect(CopyCvss(s.rec, m.cvss[k.value]), m.other);
    } else {
      OtherStepEffect(s.rec, m.other);
    }
  }

  /** Metrics without KEV blocks leave `cisa_kev_date` as it was. */
  lemma {:induction false} AdpMetricsKeepKevDate(s: Scan, ms: seq<Metric>)
    requires forall j :: 0 <= j < |ms| ==> !IsKevBlock(ms[j].other)
    ensures AdpMetrics(s, ms).Some? ==> AdpMetrics(s, ms).value.rec.cisaKevDate == s.rec.cisaKevDate
    decreases |ms|
  {
    if ms != [] {
      var step := AdpMetricStep(s, ms[0]);
      AdpMetricStepEffect(s, ms[0]);
      if step.Some? {
        assert forall j :: 0 <= j < |ms[1..]| ==> ms[1..][j] == ms[j + 1];
        AdpMetricsKeepKevDate(step.value, ms[1..]);
      }
    }
  }

  /** A KEV block with content that the loop reaches (its metric is
      processed from the scan state after the metrics before it) makes a
      successful scan end with `cisa_kev` TRUE; when no later metric has a
      KEV block, `cisa_kev_date` is that block's `dateAdded`. A KEV block
      the loop does not reach is skipped (`IncompleteBlockSkipsOther`). */
  lemma {:induction false} KevBlockIsRead(s: Scan, ms: seq<Metric>, i: nat, c: OtherContent)
    requires i < |ms|
    requires ms[i].other == Some(OtherBlock(Some("kev"), Some(c)))
    requires AdpMetrics(s, ms[..i]).Some? && OtherReached(AdpMetrics(s, ms[..i]).value, ms[i])
    requires AdpMetrics(s, ms).Some?
    ensures AdpMetrics(s, ms).value.rec.cisaKev == "TRUE"
    ensures (forall j :: i < j < |ms| ==> !IsKevBlock(ms[j].other)) ==>
      AdpMetrics(s, ms).value.rec.cisaKevDate == c.dateAdded.GetOr("")
    decreases i
  {
    var step := AdpMetricStep(s, ms[0]);
    if i == 0 {
      assert ms[..0] == [];
      KevStepRead(s, ms[0], c);
      AdpMetricsEffect(step.value, ms[1..]);
      if forall j :: 0 < j < |ms| ==> !IsKevBlock(ms[j].other) {
        assert forall j :: 0 <= j < |ms[1..]| ==> ms[1..][j] == ms[j + 1];
        AdpMetricsKeepKevDate(step.value, ms[1..]);
      }
    } else {
      assert ms[..i][0] == ms[0] && ms[..i][1..] == ms[1..][..i - 1];
      assert forall j :: i - 1 < j < |ms[1..]| ==> ms[1..][j] == ms[j + 1];
      KevBlockIsRead(step.value, ms[1..], i - 1, c);
    }
  }

  // ---------------------------------------------------- problem types

  /** The first CWE description, if any, and nothing typed CWE before it. */
  lemma {:induction false} FirstCweIsFirst(ds: seq<Description>)
    ensures FirstCwe(ds).Some? <==> exists i :: 0 <= i < |ds| && ds[i].kind == Some("CWE")
    ensures FirstCwe(ds).Some? ==>
      exists i :: (0 <= i < |ds| && ds[i] == FirstCwe(ds).value
        && ds[i].kind == Some("CWE") && forall j :: 0 <= j < i ==> ds[j].kind != Some("CWE"))
    decreases |ds|
  {
    if ds != [] && ds[0].kind != Some("CWE") {
      FirstCweIsFirst(ds[1..]);
      assert forall j :: 0 <= j < |ds[1..]| ==> ds[1..][j] == ds[j + 1];
      if FirstCwe(ds).Some? {
        var i :| 0 <= i < |ds[1..]| && ds[1..][i] == FirstCwe(ds).value
          && ds[1..][i].kind == Some("CWE") && forall j :: 0 <= j < i ==> ds[1..][j].kind != Some("CWE");
        assert ds[i + 1] == FirstCwe(ds).value;
      }
    }
  }

  /** The CWE of the last problem type that has one. */
  function LastCwe(ps: seq<ProblemType>): Option<Description>
    decreases |ps|
  {
    if ps == [] then None
    else
      match LastCwe(ps[1..])
      case Some(d) => Some(d)
      case None => FirstCwe(ps[0].descriptions)
  }

  function WithCwe(t: Record, d: Option<Description>): Record {
    match d
    case None => t
    case Some(x) => t.(cweNumber := x.cweId.GetOr(""), cweDescription := x.text.GetOr(""))
  }

  /** Over a problemTypes list the last problem type holding a CWE
      description decides both CWE columns; nothing else changes. */
  lemma {:induction false} ProblemTypesEffect(t: Record, ps: seq<ProblemType>)
    ensures ProblemTypesFrom(t, ps) == WithCwe(t, LastCwe(ps))
    decreases |ps|
  {
    if ps != [] {
      ProblemTypesEffect(CweStep(t, ps[0]), ps[1..]);
    }
  }

  // ---------------------------------------------------------- affected

  function Products(items: seq<AffectedItem>): (r: seq<string>)
    ensures |r| == |items| && forall i :: 0 <= i < |items| ==> r[i] == items[i].product.GetOr("")
  {
    seq(|items|, i requires 0 <= i < |items| => items[i].product.GetOr(""))
  }

  /** All `version` strings of the entries, entry by entry. */
  function AffectedVersions(items: seq<AffectedItem>): seq<string>
    decreases |items|
  {
    if items == [] then [] else VersionsOf(items[0].versions) + AffectedVersions(items[1..])
  }

  function LastVendor(t: Record, items: seq<AffectedItem>): string {
    if items == [] then t.impactedVendor else items[|items| - 1].vendor.GetOr("")
  }

  /** `b` agrees with `a` outside the three affected-entry columns. */
  predicate SameOutsideAffected(a: Record, b: Record) {
    a.(impactedVendor := b.impactedVendor, impactedProducts := b.impactedProducts,
       vulnerableVersions := b.vulnerableVersions) == b
  }

  lemma AffectedLists(t: Record, items: seq<AffectedItem>)
    ensures SameOutsideAffected(t, AffectedFrom(t, items))
    ensures AffectedFrom(t, items).impactedVendor == LastVendor(t, items)
    ensures AffectedFrom(t, items).impactedProducts == t.impactedProducts + Products(items)
  {
    AffectedFrame(t, items);
    AffectedVendor(t, items);
    AffectedProductList(t, items);
  }

  lemma {:induction false} AffectedFrame(t: Record, items: seq<AffectedItem>)
    ensures SameOutsideAffected(t, AffectedFrom(t, items))
    decreases |items|
  {
    if items != [] {
      AffectedFrame(AffectedStep(t, items[0]), items[1..]);
    }
  }

  lemma {:induction false} AffectedVendor(t: Record, items: seq<AffectedItem>)
    ensures AffectedFrom(t, items).impactedVendor == LastVendor(t, items)
    decreases |items|
  {
    if items != [] {
      var rest := items[1..];
      AffectedVendor(AffectedStep(t, items[0]), rest);
      if rest != [] {
        assert items[|items| - 1] == rest[|rest| - 1];
      }
    }
  }

  lemma {:induction false} AffectedProductList(t: Record, items: seq<AffectedItem>)
    ensures AffectedFrom(t, items).impactedProducts == t.impactedProducts + Products(items)
    decreases |items|
  {
    if items != [] {
      var rest := items[1..];
      var u := AffectedStep(t, items[0]);
      AffectedProductList(u, rest);
      ProductsCons(items);
    }
  }

  lemma ProductsCons(items: seq<AffectedItem>)
    requires items != []
    ensures Products(items) == [items[0].product.GetOr("")] + Products(items[1..])
  {
  }

  lemma {:induction false} AffectedVersionList(t: Record, items: seq<AffectedItem>)
    ensures AffectedFrom(t, items).vulnerableVersions == t.vulnerableVersions + AffectedVersions(items)
    decreases |items|
  {
    if items != [] {
      var u := AffectedStep(t, items[0]);
      AffectedVersionList(u, items[1..]);
      assert AffectedFrom(t, items).vulnerableVersions
          == (t.vulnerableVersions + VersionsOf(items[0].versions)) + AffectedVersions(items[1..]);
    }
  }

  /** Over an affected list the vendor is the last entry's, and products
      and versions are appended in document order, duplicates kept. */
  lemma AffectedEffect(t: Record, items: seq<AffectedItem>)
    ensures AffectedFrom(t, items) == t.(impactedVendor := LastVendor(t, items),
      impactedProducts := t.impactedProducts + Products(items),
      vulnerableVersions := t.vulnerableVersions + AffectedVersions(items))
  {
    AffectedLists(t, items);
    AffectedVersionList(t, items);
  }

  // ------------------------------------------------------- CNA metrics

  /** The block under key `k` of the last metric that has one. */
  function LastBlock(k: CvssKey, ms: seq<Metric>): Option<CvssBlock>
    decreases |ms|
  {
    if ms == [] then None
    else
      match LastBlock(k, ms[1..])
      case Some(b) => Some(b)
      case None => if k in ms[0].cvss then Some(ms[0].cvss[k]) else None
  }

  lemma {:induction false} LastBlockExists(k: CvssKey, ms: seq<Metric>)
    ensures LastBlock(k, ms).Some? <==> exists i :: 0 <= i < |ms| && k in ms[i].cvss
    decreases |ms|
  {
    if ms != [] {
      LastBlockExists(k, ms[1..]);
      assert forall i :: 0 <= i < |ms[1..]| ==> ms[1..][i] == ms[i + 1];
      if k !in ms[0].cvss && exists i :: 0 <= i < |ms| && k in ms[i].cvss {
        var i :| 0 <= i < |ms| && k in ms[i].cvss;
        assert k in ms[1..][i - 1].cvss;
      }
    }
  }

  lemma {:induction false} CnaVersionsKeys(ms: seq<Metric>, k: CvssKey)
    ensures k in CnaVersions(ms) <==> exists i :: 0 <= i < |ms| && k in ms[i].cvss
    decreases |ms|
  {
    if ms != [] {
      var n := |ms| - 1;
      CnaVersionsKeys(ms[..n], k);
      assert forall i :: 0 <= i < n ==> ms[..n][i] == ms[i];
    }
  }

  /** The CNA loop writes only CVSS columns; with a chosen key, version,
      score and severity are those of the last metric holding that key. */
  lemma {:induction false} CnaMetricsEffect(t: Record, key: Option<CvssKey>, ms: seq<Metric>)
    ensures SameOutsideCvss(t, CnaMetrics(t, key, ms))
    ensures key.Some? && LastBlock(key.value, ms).Some? ==>
      var b := LastBlock(key.value, ms).value;
      && CnaMetrics(t, key, ms).cvssVersion == b.version.GetOr("")
      && CnaMetrics(t, key, ms).baseScore == b.baseScore.GetOr("")
      && CnaMetrics(t, key, ms).baseSeverity == b.baseSeverity.GetOr("")
    ensures key.None? || LastBlock(key.value, ms).None? ==> CnaMetrics(t, key, ms) == t
    decreases |ms|
  {
    if ms != [] {
      var u := CnaMetricStep(t, key, ms[0]);
      CnaMetricsEffect(u, key, ms[1..]);
      if key.Some? && key.value in ms[0].cvss {
        CvssFillHeadline(t, ms[0].cvss[key.value]);
      }
    }
  }

  // ------------------------------------------------------------ stages

  function AffectedOf(c: Option<Container>): seq<AffectedItem> {
    match c
    case None => []
    case Some(x) => x.affected
  }

  function ProblemTypesOf(c: Option<Container>): seq<ProblemType> {
    match c
    case None => []
    case Some(x) => x.problemTypes
  }

  /** The ADP stage keeps the metadata, appends the chosen container's
      affected entries, sets the CWE from its problem types, raises
      `cisa_kev` only from one of its KEV blocks, and binds
      `all_versions_found` exactly when that container has metrics. */
  lemma AdpPartEffect(t: Record, adps: seq<Container>)
    ensures LastVulnrichment(adps).Some? &&
      (forall i :: 0 <= i < |LastVulnrichment(adps).value.metrics| ==>
         OtherWellFormed(LastVulnrichment(adps).value.metrics[i].other))
      ==> AdpPart(t, adps).AdpDone?
    ensures LastVulnrichment(adps).None? ==> AdpPart(t, adps) == AdpDone(t, false)
    ensures AdpPart(t, adps).AdpDone? ==>
      var u := AdpPart(t, adps).rec;
      var chosen := LastVulnrichment(adps);
      var aff := AffectedOf(chosen);
      && AdpPart(t, adps).versionsBound == (chosen.Some? && chosen.value.metrics != [])
      && u.cveId == t.cveId && u.publishedDate == t.publishedDate && u.updatedDate == t.updatedDate
      && u.impactedProducts == t.impactedProducts + Products(aff)
      && u.vulnerableVersions == t.vulnerableVersions + AffectedVersions(aff)
      && u.impactedVendor == LastVendor(t, aff)
      && u.cweNumber == WithCwe(t, LastCwe(ProblemTypesOf(chosen))).cweNumber
      && u.cweDescription == WithCwe(t, LastCwe(ProblemTypesOf(chosen))).cweDescription
      && (KevFlag(t.cisaKev) ==> KevFlag(u.cisaKev))
      && (u.cisaKev == "TRUE" ==>
            (t.cisaKev == "TRUE" ||
             (chosen.Some? && exists i :: 0 <= i < |chosen.value.metrics| && IsKevBlock(chosen.value.metrics[i].other))))
  {
    match LastVulnrichment(adps)
    case None =>
    case Some(c) =>
      AdpMetricsEffect(Scan(t, {}), c.metrics);
      match AdpMetrics(Scan(t, {}), c.metrics)
      case None =>
      case Some(sc) =>
        ProblemTypesEffect(sc.rec, c.problemTypes);
        var w := ProblemTypesFrom(sc.rec, c.problemTypes);
        AffectedEffect(w, c.affected);
  }

  /** The CNA stage fails exactly on the unbound `all_versions_found`; on
      success it keeps metadata and KEV columns, appends the CNA affected
      entries, lets a CNA CWE override, and, when some CNA metric carries a
      known CVSS key, takes version, score and severity from the last
      metric with the most preferred one. */
  lemma CnaPartEffect(t: Record, c: Container, bound: bool)
    ensures CnaPart(t, c, bound).Some? <==> c.metrics == [] || bound
    ensures CnaPart(t, c, bound).Some? ==>
      var r := CnaPart(t, c, bound).value;
      var key := FirstPreferred(CnaVersions(c.metrics));
      && r.cveId == t.cveId && r.publishedDate == t.publishedDate && r.updatedDate == t.updatedDate
      && r.cisaKev == t.cisaKev && r.cisaKevDate == t.cisaKevDate
      && r.impactedProducts == t.impactedProducts + Products(c.affected)
      && r.vulnerableVersions == t.vulnerableVersions + AffectedVersions(c.affected)
      && r.impactedVendor == LastVendor(t, c.affected)
      && r.cweNumber == WithCwe(t, LastCwe(c.problemTypes)).cweNumber
      && r.cweDescription == WithCwe(t, LastCwe(c.problemTypes)).cweDescription
      && (key.None? ==> r.cvssVersion == t.cvssVersion && r.baseScore == t.baseScore)
      && (key.Some? ==>
            (LastBlock(key.value, c.metrics).Some?
             && r.cvssVersion == LastBlock(key.value, c.metrics).value.version.GetOr("")
             && r.baseScore == LastBlock(key.value, c.metrics).value.baseScore.GetOr("")
             && r.baseSeverity == LastBlock(key.value, c.metrics).value.baseSeverity.GetOr("")))
  {
    AffectedEffect(t, c.affected);
    var u := AffectedFrom(t, c.affected);
    var key := FirstPreferred(CnaVersions(c.metrics));
    CnaMetricsEffect(u, key, c.metrics);
    var v := CnaMetrics(u, key, c.metrics);
    ProblemTypesEffect(v, c.problemTypes);
    if key.Some? {
      CnaVersionsKeys(c.metrics, key.value);
      LastBlockExists(key.value, c.metrics);
    }
  }

  // --------------------------------------------------------- documents

  function ContainersOf(doc: Document): Containers {
    doc.containers.GetOr(Containers([], None))
  }

  function ChosenAdp(doc: Document): Option<Container> {
    LastVulnrichment(ContainersOf(doc).adp)
  }

  function MetadataOf(doc: Document): Metadata {
    doc.cveMetadata.GetOr(Metadata(None, None, None))
  }

  /** A produced record is the CNA stage applied to the ADP stage's result. */
  lemma ExtractShape(doc: Document)
    requires ExtractCve(doc).Some?
    ensures var t := WithMetadata(Template, doc.cveMetadata);
      var a := AdpPart(t, ContainersOf(doc).adp);
      && a.AdpDone? && ContainersOf(doc).cna.Some?
      && ExtractCve(doc) == CnaPart(a.rec, ContainersOf(doc).cna.value, a.versionsBound)
  {
  }

  /** No `cna` container, no record. */
  lemma NoCnaNoRecord(doc: Document)
    requires ContainersOf(doc).cna.None?
    ensures ExtractCve(doc) == None
  {
  }

  /** CNA metrics with no ADP metrics before them reach the log line that
      names `all_versions_found`, which was never bound: no record. */
  lemma UnboundVersionsNoRecord(doc: Document)
    requires ContainersOf(doc).cna.Some? && ContainersOf(doc).cna.value.metrics != []
    requires ChosenAdp(doc).None? || ChosenAdp(doc).value.metrics == []
    ensures ExtractCve(doc) == None
  {
    var t := WithMetadata(Template, doc.cveMetadata);
    AdpPartEffect(t, ContainersOf(doc).adp);
    match AdpPart(t, ContainersOf(doc).adp)
    case AdpFailed =>
    case AdpDone(u, bound) =>
      CnaPartEffect(u, ContainersOf(doc).cna.value, bound);
  }

  /** A record is produced only with a `cna` container, and, when that has
      metrics, only after the chosen ADP container had metrics too. */
  lemma RecordNeedsCna(doc: Document)
    requires ExtractCve(doc).Some?
    ensures ContainersOf(doc).cna.Some?
    ensures ContainersOf(doc).cna.value.metrics != [] ==>
      ChosenAdp(doc).Some? && ChosenAdp(doc).value.metrics != []
  {
    if ContainersOf(doc).cna.Some? && ContainersOf(doc).cna.value.metrics != []
      && (ChosenAdp(doc).None? || ChosenAdp(doc).value.metrics == []) {
      UnboundVersionsNoRecord(doc);
    }
  }

  /** With a `cna` container, the `all_versions_found` condition met and
      every `other` block of the chosen ADP container well formed, a
      record is produced. */
  lemma WellFormedDocumentExtracts(doc: Document)
    requires ContainersOf(doc).cna.Some?
    requires ContainersOf(doc).cna.value.metrics == [] ||
      (ChosenAdp(doc).Some? && ChosenAdp(doc).value.metrics != [])
    requires ChosenAdp(doc).Some? ==>
      forall i :: 0 <= i < |ChosenAdp(doc).value.metrics| ==> OtherWellFormed(ChosenAdp(doc).value.metrics[i].other)
    ensures ExtractCve(doc).Some?
  {
    var t := WithMetadata(Template, doc.cveMetadata);
    AdpPartEffect(t, ContainersOf(doc).adp);
    var a := AdpPart(t, ContainersOf(doc).adp);
    CnaPartEffect(a.rec, ContainersOf(doc).cna.value, a.versionsBound);
  }

  /** Missing metadata keys become ''. */
  lemma MetadataCopied(doc: Document)
    requires ExtractCve(doc).Some?
    ensures ExtractCve(doc).value.cveId == MetadataOf(doc).cveId.GetOr("")
    ensures ExtractCve(doc).value.publishedDate == MetadataOf(doc).datePublished.GetOr("")
    ensures ExtractCve(doc).value.updatedDate == MetadataOf(doc).dateUpdated.GetOr("")
  {
    var t := WithMetadata(Template, doc.cveMetadata);
    AdpPartEffect(t, ContainersOf(doc).adp);
    var a := AdpPart(t, ContainersOf(doc).adp);
    CnaPartEffect(a.rec, ContainersOf(doc).cna.value, a.versionsBound);
  }

  /** The affected-entry columns after the ADP stage. */
  lemma AdpAffected(t: Record, adps: seq<Container>)
    requires AdpPart(t, adps).AdpDone?
    ensures var u := AdpPart(t, adps).rec;
      var aff := AffectedOf(LastVulnrichment(adps));
      && u.impactedProducts == t.impactedProducts + Products(aff)
      && u.vulnerableVersions == t.vulnerableVersions + AffectedVersions(aff)
      && u.impactedVendor == LastVendor(t, aff)
  {
    AdpPartEffect(t, adps);
  }

  /** The affected-entry columns after the CNA stage. */
  lemma CnaAffected(t: Record, c: Container, bound: bool)
    requires CnaPart(t, c, bound).Some?
    ensures var r := CnaPart(t, c, bound).value;
      && r.impactedProducts == t.impactedProducts + Products(c.affected)
      && r.vulnerableVersions == t.vulnerableVersions + AffectedVersions(c.affected)
      && r.impactedVendor == LastVendor(t, c.affected)
  {
    CnaPartEffect(t, c, bound);
  }

  /** The affected-entry columns after both stages, starting from the
      template. */
  lemma AffectedComposed(md: Option<Metadata>, adps: seq<Container>, c: Container)
    requires AdpPart(WithMetadata(Template, md), adps).AdpDone?
    requires var a := AdpPart(WithMetadata(Template, md), adps);
      CnaPart(a.rec, c, a.versionsBound).Some?
    ensures var a := AdpPart(WithMetadata(Template, md), adps);
      var r := CnaPart(a.rec, c, a.versionsBound).value;
      var adp := AffectedOf(LastVulnrichment(adps));
      && r.impactedProducts == Products(adp) + Products(c.affected)
      && r.vulnerableVersions == AffectedVersions(adp) + AffectedVersions(c.affected)
      && r.impactedVendor == (if c.affected != [] then c.affected[|c.affected| - 1].vendor.GetOr("")
                              else if adp != [] then adp[|adp| - 1].vendor.GetOr("")
                              else "")
  {
    var t := WithMetadata(Template, md);
    var a := AdpPart(t, adps);
    AdpAffected(t, adps);
    CnaAffected(a.rec, c, a.versionsBound);
    ChainAffected(t, a.rec, CnaPart(a.rec, c, a.versionsBound).value, AffectedOf(LastVulnrichment(adps)), c.affected);
  }

  lemma ChainAffected(t: Record, u: Record, r: Record, adp: seq<AffectedItem>, cna: seq<AffectedItem>)
    requires t.impactedProducts == [] && t.vulnerableVersions == [] && t.impactedVendor == ""
    requires u.impactedProducts == t.impactedProducts + Products(adp)
    requires u.vulnerableVersions == t.vulnerableVersions + AffectedVersions(adp)
    requires u.impactedVendor == LastVendor(t, adp)
    requires r.impactedProducts == u.impactedProducts + Products(cna)
    requires r.vulnerableVersions == u.vulnerableVersions + AffectedVersions(cna)
    requires r.impactedVendor == LastVendor(u, cna)
    ensures r.impactedProducts == Products(adp) + Products(cna)
    ensures r.vulnerableVersions == AffectedVersions(adp) + AffectedVersions(cna)
    ensures r.impactedVendor == (if cna != [] then cna[|cna| - 1].vendor.GetOr("")
                                 else if adp != [] then adp[|adp| - 1].vendor.GetOr("")
                                 else "")
  {
    assert t.impactedProducts + Products(adp) == Products(adp);
    assert t.vulnerableVersions + AffectedVersions(adp) == AffectedVersions(adp);
  }

  /** Products and versions list the chosen ADP container's affected
      entries and then the CNA's, in document order, duplicates kept; the
      vendor is that of the last affected entry processed. */
  lemma AffectedInDocumentOrder(doc: Document)
    requires ExtractCve(doc).Some?
    ensures var r := ExtractCve(doc).value;
      var adp := AffectedOf(ChosenAdp(doc));
      var cna := ContainersOf(doc).cna.value.affected;
      && r.impactedProducts == Products(adp) + Products(cna)
      && r.vulnerableVersions == AffectedVersions(adp) + AffectedVersions(cna)
      && r.impactedVendor == (if cna != [] then cna[|cna| - 1].vendor.GetOr("")
                              else if adp != [] then adp[|adp| - 1].vendor.GetOr("")
                              else "")
  {
    ExtractShape(doc);
    AffectedComposed(doc.cveMetadata, ContainersOf(doc).adp, ContainersOf(doc).cna.value);
  }

  /** A CWE found in the CNA problem types overrides the ADP one; without
      one the ADP CWE (or '') stays. */
  lemma CnaCweOverrides(doc: Document)
    requires ExtractCve(doc).Some?
    ensures var r := ExtractCve(doc).value;
      var final := WithCwe(WithCwe(Template, LastCwe(ProblemTypesOf(ChosenAdp(doc)))),
                           LastCwe(ContainersOf(doc).cna.value.problemTypes));
      r.cweNumber == final.cweNumber && r.cweDescription == final.cweDescription
  {
    var t := WithMetadata(Template, doc.cveMetadata);
    AdpPartEffect(t, ContainersOf(doc).adp);
    var a := AdpPart(t, ContainersOf(doc).adp);
    CnaPartEffect(a.rec, ContainersOf(doc).cna.value, a.versionsBound);
  }

  /** When a CNA metric carries a known CVSS key, version, score and
      severity come from the last CNA metric holding the most preferred
      such key, whatever the ADP container said. */
  lemma CnaCvssOverrides(doc: Document)
    requires ExtractCve(doc).Some?
    requires FirstPreferred(CnaVersions(ContainersOf(doc).cna.value.metrics)).Some?
    ensures var ms := ContainersOf(doc).cna.value.metrics;
      var k := FirstPreferred(CnaVersions(ms)).value;
      var r := ExtractCve(doc).value;
      && LastBlock(k, ms).Some?
      && r.cvssVersion == LastBlock(k, ms).value.version.GetOr("")
      && r.baseScore == LastBlock(k, ms).value.baseScore.GetOr("")
      && r.baseSeverity == LastBlock(k, ms).value.baseSeverity.GetOr("")
  {
    var t := WithMetadata(Template, doc.cveMetadata);
    var a := AdpPart(t, ContainersOf(doc).adp);
    CnaPartEffect(a.rec, ContainersOf(doc).cna.value, a.versionsBound);
  }

  /** `cisa_kev` is always 'TRUE' or 'FALSE', and 'TRUE' only when the
      chosen ADP container has a KEV block. */
  lemma KevFlagSound(doc: Document)
    requires ExtractCve(doc).Some?
    ensures KevFlag(ExtractCve(doc).value.cisaKev)
    ensures ExtractCve(doc).value.cisaKev == "TRUE" ==>
      ChosenAdp(doc).Some? &&
      exists i :: 0 <= i < |ChosenAdp(doc).value.metrics| && IsKevBlock(ChosenAdp(doc).value.metrics[i].other)
  {
    var t := WithMetadata(Template, doc.cveMetadata);
    AdpPartEffect(t, ContainersOf(doc).adp);
    var a := AdpPart(t, ContainersOf(doc).adp);
    CnaPartEffect(a.rec, ContainersOf(doc).cna.value, a.versionsBound);
  }
}
