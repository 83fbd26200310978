/** The CVSS vector-string decoder `vector_string_to_metrics`. The string is
    `VERSION/KEY:VALUE/...` (section 6, "Vector String", of the FIRST CVSS
    v3.1 Specification); the decoder drops the first `/`-separated token,
    builds a dictionary from the remaining `KEY:VALUE` tokens (a later
    duplicate key wins), and maps the codes of eight base metrics through
    fixed tables. It writes all eight fields of the record it is given, or,
    when a token does not split into exactly two parts, none of them. */
module VectorString {
  import opened Wrappers
  import opened Strings
  import opened CveRecord

  /** The `KEY:VALUE` tokens: everything after the first `/`-separated token. */
  function Tokens(vs: string): seq<string> {
    Split(vs, '/')[1..]
  }

  /** Each token split on `:`, as the decoder's loop builds `metrics_new`. */
  function SplitPairs(tokens: seq<string>): (r: seq<seq<string>>)
    ensures |r| == |tokens|
    ensures forall j :: 0 <= j < |tokens| ==> r[j] == Split(tokens[j], ':')
  {
    seq(|tokens|, j requires 0 <= j < |tokens| => Split(tokens[j], ':'))
  }

  /** Python's `dict(pairs)`: fails unless every element has exactly two
      parts; otherwise later pairs overwrite earlier ones. */
  function DictOf(pairs: seq<seq<string>>): Option<map<string, string>>
    decreases |pairs|
  {
    if pairs == [] then Some(map[])
    else
      match DictOf(pairs[..|pairs| - 1])
      case None => None
      case Some(m) =>
        var p := pairs[|pairs| - 1];
        if |p| == 2 then Some(m[p[0] := p[1]]) else None
  }

  function ParseVector(vs: string): Option<map<string, string>> {
    DictOf(SplitPairs(Tokens(vs)))
  }

  /** `dict.get(key)`. */
  function Lookup(d: map<string, string>, key: string): Option<string> {
    if key in d then Some(d[key]) else None
  }

  // The eight code tables. An absent key or an unlisted code gives "".

  function AttackVectorName(code: Option<string>): string {
    if code == Some("N") then "NETWORK"
    else if code == Some("A") then "ADJACENT_NETWORK"
    else if code == Some("L") then "LOCAL"
    else if code == Some("P") then "PHYSICAL"
    else ""
  }

  function AttackComplexityName(code: Option<string>): string {
    if code == Some("L") then "LOW"
    else if code == Some("H") then "HIGH"
    else ""
  }

  /** The table shared by PR, C, I and A. */
  function NoneLowHighName(code: Option<string>): string {
    if code == Some("N") then "NONE"
    else if code == Some("L") then "LOW"
    else if code == Some("H") then "HIGH"
    else ""
  }

  function UserInteractionName(code: Option<string>): string {
    if code == Some("N") then "NONE"
    else if code == Some("R") then "REQUIRED"
    else ""
  }

  function ScopeName(code: Option<string>): string {
    if code == Some("U") then "UNCHANGED"
    else if code == Some("C") then "CHANGED"
    else ""
  }

  /** The eight metric keys, in the order of `SubMetrics`. */
  const VectorKeys: seq<string> := ["AV", "AC", "PR", "UI", "S", "C", "I", "A"]

  /** The table for the key at position `i` of `VectorKeys`. */
  function CodeName(i: nat, code: Option<string>): string
    requires i < 8
  {
    if i == 0 then AttackVectorName(code)
    else if i == 1 then AttackComplexityName(code)
    else if i == 3 then UserInteractionName(code)
    else if i == 4 then ScopeName(code)
    else NoneLowHighName(code)
  }

  /** The eight sub-metric fields of a record, in the order of `VectorKeys`. */
  function SubMetrics(t: Record): (s: seq<string>)
    ensures |s| == 8
  {
    [t.attackVector, t.attackComplexity, t.privilegesRequired, t.userInteraction,
     t.scope, t.confidentialityImpact, t.integrityImpact, t.availabilityImpact]
  }

  /** The record with its eight sub-metric fields decoded from `d`. */
  function Decoded(t: Record, d: map<string, string>): (r: Record)
    ensures SameOutsideSubMetrics(t, r)
  {
    Record(t.cveId, t.publishedDate, t.updatedDate, t.cisaKev, t.cisaKevDate,
           t.cvssVersion, t.baseScore, t.baseSeverity,
           AttackVectorName(Lookup(d, "AV")), AttackComplexityName(Lookup(d, "AC")),
           NoneLowHighName(Lookup(d, "PR")), UserInteractionName(Lookup(d, "UI")),
           ScopeName(Lookup(d, "S")), NoneLowHighName(Lookup(d, "C")),
           NoneLowHighName(Lookup(d, "I")), NoneLowHighName(Lookup(d, "A")),
           t.ssvcTimestamp, t.ssvcExploitation, t.ssvcAutomatable, t.ssvcTechnicalImpact,
           t.ssvcDecision, t.impactedVendor, t.impactedProducts, t.vulnerableVersions,
           t.cweNumber, t.cweDescription)
  }

  /** What the decoder leaves in the record. */
  function ApplyVector(t: Record, vs: string): (r: Record)
    ensures SameOutsideSubMetrics(t, r)
  {
    if vs == "" then t
    else
      match ParseVector(vs)
      case None => t
      case Some(d) => Decoded(t, d)
  }

  /** The loop that builds `metrics_new`: every token after the first,
      split on `:`. */
  method SplitMetrics(vs: string) returns (pairs: seq<seq<string>>)
    ensures pairs == SplitPairs(Tokens(vs))
  {
    var tokens := Split(vs, '/')[1..];
    pairs := [];
    for i := 0 to |tokens|
      invariant pairs == SplitPairs(tokens[..i])
    {
      assert SplitPairs(tokens[..i + 1]) == SplitPairs(tokens[..i]) + [Split(tokens[i], ':')];
      pairs := pairs + [Split(tokens[i], ':')];
    }
    assert tokens[..|tokens|] == tokens;
  }

  /** The decoder itself: it updates the caller's record in place and hands
      back the same object. */
  method VectorStringToMetrics(e: CveEntry, vs: string) returns (r: CveEntry)
    modifies e
    ensures r == e
    ensures e.value == ApplyVector(old(e.value), vs)
  {
    r := e;
    if vs == "" {
      return;
    }
    var pairs := SplitMetrics(vs);
    var parsed := DictOf(pairs);
    if parsed.None? {
      // dict() raised before any field was written; the error is only logged
      return;
    }
    WriteSubMetrics(e, parsed.value);
  }

  /** The eight assignments that follow a successful `dict()`. */
  method WriteSubMetrics(e: CveEntry, d: map<string, string>)
    modifies e
    ensures e.value == Decoded(old(e.value), d)
  {
    e.value := e.value.(attackVector := AttackVectorName(Lookup(d, "AV")));
    e.value := e.value.(attackComplexity := AttackComplexityName(Lookup(d, "AC")));
    e.value := e.value.(privilegesRequired := NoneLowHighName(Lookup(d, "PR")));
    e.value := e.value.(userInteraction := UserInteractionName(Lookup(d, "UI")));
    e.value := e.value.(scope := ScopeName(Lookup(d, "S")));
    e.value := e.value.(confidentialityImpact := NoneLowHighName(Lookup(d, "C")));
    e.value := e.value.(integrityImpact := NoneLowHighName(Lookup(d, "I")));
    e.value := e.value.(availabilityImpact := NoneLowHighName(Lookup(d, "A")));
  }

  // ------------------------------------------------------------ dict()

  /** `dict(pairs)` succeeds exactly when every element has two parts. */
  lemma {:induction false} DictOfDefined(pairs: seq<seq<string>>)
    ensures DictOf(pairs).Some? <==> forall j :: 0 <= j < |pairs| ==> |pairs[j]| == 2
    decreases |pairs|
  {
    if pairs != [] {
      var init := pairs[..|pairs| - 1];
      DictOfDefined(init);
      assert forall j :: 0 <= j < |init| ==> init[j] == pairs[j];
    }
  }

  /** The keys of `dict(pairs)` are the first parts of the pairs, and each
      key holds the second part of its LAST pair. */
  lemma {:induction false} DictOfLastWins(pairs: seq<seq<string>>, j: nat)
    requires forall k :: 0 <= k < |pairs| ==> |pairs[k]| == 2
    requires j < |pairs|
    requires forall k :: j < k < |pairs| ==> pairs[k][0] != pairs[j][0]
    ensures DictOf(pairs).Some?
    ensures pairs[j][0] in DictOf(pairs).value
    ensures DictOf(pairs).value[pairs[j][0]] == pairs[j][1]
    decreases |pairs|
  {
    DictOfDefined(pairs);
    var init := pairs[..|pairs| - 1];
    if j < |pairs| - 1 {
      assert init[j] == pairs[j];
      DictOfLastWins(init, j);
    }
  }

  lemma {:induction false} DictOfKeys(pairs: seq<seq<string>>, key: string)
    requires forall k :: 0 <= k < |pairs| ==> |pairs[k]| == 2
    ensures DictOf(pairs).Some?
    ensures key in DictOf(pairs).value <==> exists j :: 0 <= j < |pairs| && pairs[j][0] == key
    decreases |pairs|
  {
    DictOfDefined(pairs);
    if pairs != [] {
      var init := pairs[..|pairs| - 1];
      DictOfKeys(init, key);
      assert forall j :: 0 <= j < |init| ==> init[j] == pairs[j];
      if key in DictOf(pairs).value && key !in DictOf(init).value {
        assert pairs[|pairs| - 1][0] == key;
      }
    }
  }

  // ------------------------------------------------------ the decoder

  lemma ApplyVectorSubMetrics(t: Record, vs: string, i: nat)
    requires vs != "" && ParseVector(vs).Some? && i < 8
    ensures SubMetrics(ApplyVector(t, vs))[i] == CodeName(i, Lookup(ParseVector(vs).value, VectorKeys[i]))
  {
  }

  /** An empty vector string leaves the record as it was. */
  lemma EmptyVectorLeavesRecord(t: Record)
    ensures ApplyVector(t, "") == t
  {
  }

  /** One token that does not split into exactly two `:` parts leaves the
      whole record as it was, even when other tokens are well formed. */
  lemma MalformedTokenLeavesRecord(t: Record, vs: string, j: nat)
    requires j < |Tokens(vs)|
    requires |Split(Tokens(vs)[j], ':')| != 2
    ensures ApplyVector(t, vs) == t
  {
    DictOfDefined(SplitPairs(Tokens(vs)));
  }

  /** A well-formed vector writes all eight fields whatever they held
      before: two records that differ only in their sub-metrics come out
      equal. */
  lemma WellFormedVectorOverwrites(t: Record, u: Record, vs: string)
    requires vs != ""
    requires forall j :: 0 <= j < |Tokens(vs)| ==> |Split(Tokens(vs)[j], ':')| == 2
    requires SameOutsideSubMetrics(t, u)
    ensures ApplyVector(t, vs) == ApplyVector(u, vs)
  {
    DictOfDefined(SplitPairs(Tokens(vs)));
  }

  /** On a well-formed vector the field of metric `i` is decoded from the
      value of the last token with that key, and is "" when no token has it. */
  lemma VectorLastWins(t: Record, vs: string, i: nat, j: nat)
    requires vs != "" && i < 8
    requires forall k :: 0 <= k < |Tokens(vs)| ==> |Split(Tokens(vs)[k], ':')| == 2
    requires j < |Tokens(vs)| && Split(Tokens(vs)[j], ':')[0] == VectorKeys[i]
    requires forall k :: j < k < |Tokens(vs)| ==> Split(Tokens(vs)[k], ':')[0] != VectorKeys[i]
    ensures SubMetrics(ApplyVector(t, vs))[i] == CodeName(i, Some(Split(Tokens(vs)[j], ':')[1]))
  {
    var pairs := SplitPairs(Tokens(vs));
    assert forall k :: 0 <= k < |pairs| ==> |pairs[k]| == 2;
    assert forall k :: j < k < |pairs| ==> pairs[k][0] != pairs[j][0];
    DictOfLastWins(pairs, j);
    var d := ParseVector(vs).value;
    assert Lookup(d, VectorKeys[i]) == Some(pairs[j][1]);
    ApplyVectorSubMetrics(t, vs, i);
  }

  lemma VectorAbsentKey(t: Record, vs: string, i: nat)
    requires vs != "" && i < 8
    requires forall k :: 0 <= k < |Tokens(vs)| ==> |Split(Tokens(vs)[k], ':')| == 2
    requires forall k :: 0 <= k < |Tokens(vs)| ==> Split(Tokens(vs)[k], ':')[0] != VectorKeys[i]
    ensures SubMetrics(ApplyVector(t, vs))[i] == ""
  {
    var pairs := SplitPairs(Tokens(vs));
    assert forall k :: 0 <= k < |pairs| ==> |pairs[k]| == 2;
    DictOfKeys(pairs, VectorKeys[i]);
    assert Lookup(ParseVector(vs).value, VectorKeys[i]) == None;
    ApplyVectorSubMetrics(t, vs, i);
  }

  /** The first token, whatever it says, is never read. */
  lemma FirstTokenIgnored(t: Record, p: string, q: string, rest: string)
    requires '/' !in p && '/' !in q
    ensures ApplyVector(t, p + "/" + rest) == ApplyVector(t, q + "/" + rest)
  {
    SplitAtSep(p, rest, '/');
    SplitAtSep(q, rest, '/');
    assert Tokens(p + "/" + rest) == Split(rest, '/');
    assert Tokens(q + "/" + rest) == Split(rest, '/');
  }

  /** A non-empty vector without any `/` (just a version marker) clears all
      eight fields. */
  lemma VersionOnlyVectorClears(t: Record, vs: string)
    requires vs != "" && '/' !in vs
    ensures SubMetrics(ApplyVector(t, vs)) == ["", "", "", "", "", "", "", ""]
  {
    SplitWithoutSep(vs, '/');
    assert Tokens(vs) == [];
    assert SplitPairs([]) == [];
  }
}
