/** The simplified SSVC decision (`calculate_ssvc_score`): exploitation
    status, automatability and technical impact, compared case-insensitively,
    choose one of four labels. */
module Ssvc {
  import opened Strings

  predicate IsDecision(r: string) {
    r == "Act" || r == "Attend" || r == "Track" || r == "Unknown"
  }

  predicate KnownExploitation(e: string) {
    e == "active" || e == "poc" || e == "none"
  }

  /** The decision tree as coded: anything other than "total" is read as
      partial impact, anything other than "yes" as not automatable, and only
      an unrecognised exploitation status gives "Unknown". */
  function CalculateSsvcScore(exploitation: string, automatable: string, technicalImpact: string): (r: string)
    ensures IsDecision(r)
    ensures r == "Unknown" <==> !KnownExploitation(Lower(exploitation))
  {
    var e := Lower(exploitation);
    var a := Lower(automatable);
    var t := Lower(technicalImpact);
    if e == "active" then
      if t == "total" then "Act"
      else if a == "yes" then "Act"
      else "Attend"
    else if e == "poc" then
      if a == "yes" then
        if t == "total" then "Attend" else "Attend"
      else
        if t == "total" then "Attend" else "Track"
    else if e == "none" then
      if a == "yes" then
        if t == "total" then "Attend" else "Track"
      else "Track"
    else "Unknown"
  }

  /** The twelve rows of the decision table over the canonical values. */
  const DecisionTable: map<(string, string, string), string> := map[
    ("active", "yes", "total") := "Act",
    ("active", "no", "total") := "Act",
    ("active", "yes", "partial") := "Act",
    ("active", "no", "partial") := "Attend",
    ("poc", "yes", "total") := "Attend",
    ("poc", "no", "total") := "Attend",
    ("poc", "yes", "partial") := "Attend",
    ("poc", "no", "partial") := "Track",
    ("none", "yes", "total") := "Attend",
    ("none", "no", "total") := "Track",
    ("none", "yes", "partial") := "Track",
    ("none", "no", "partial") := "Track"]

  /** How the code classifies an automatable value: "yes" or anything else. */
  function AutomatableClass(a: string): string {
    if Lower(a) == "yes" then "yes" else "no"
  }

  /** How the code classifies a technical-impact value: "total" or anything else. */
  function ImpactClass(t: string): string {
    if Lower(t) == "total" then "total" else "partial"
  }

  /** For every input with a recognised exploitation status the decision is
      the table's entry for the classified inputs. */
  lemma SsvcFollowsTable(exploitation: string, automatable: string, technicalImpact: string)
    requires KnownExploitation(Lower(exploitation))
    ensures (Lower(exploitation), AutomatableClass(automatable), ImpactClass(technicalImpact)) in DecisionTable
    ensures CalculateSsvcScore(exploitation, automatable, technicalImpact)
         == DecisionTable[(Lower(exploitation), AutomatableClass(automatable), ImpactClass(technicalImpact))]
  {
  }

  /** Upper and lower case give the same decision. */
  lemma SsvcCaseInsensitive(exploitation: string, automatable: string, technicalImpact: string)
    ensures CalculateSsvcScore(exploitation, automatable, technicalImpact)
         == CalculateSsvcScore(Lower(exploitation), Lower(automatable), Lower(technicalImpact))
  {
    LowerIdempotent(exploitation);
    LowerIdempotent(automatable);
    LowerIdempotent(technicalImpact);
  }

  /** An unrecognised automatable value decides like "no", and an
      unrecognised technical impact like "partial"; neither gives "Unknown". */
  lemma SsvcDefaultsForOtherValues(exploitation: string, automatable: string, technicalImpact: string)
    ensures Lower(automatable) != "yes" ==>
      CalculateSsvcScore(exploitation, automatable, technicalImpact)
      == CalculateSsvcScore(exploitation, "no", technicalImpact)
    ensures Lower(technicalImpact) != "total" ==>
      CalculateSsvcScore(exploitation, automatable, technicalImpact)
      == CalculateSsvcScore(exploitation, automatable, "partial")
  {
  }
}
