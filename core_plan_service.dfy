/**
 * The plan generator of the `core` package. It asks the same questions as
 * the application's generator when nothing matches, but adds no generic
 * suggestions of its own, and it takes the therapy type and every default
 * from the primary condition's knowledge-base entry instead of from research
 * articles.
 */
module CorePlanService {
  import opened Wrappers
  import opened Dicts
  import opened Models
  import opened Exceptions
  import opened ResearchService
  import opened PlanService

  const DefaultGoals: seq<string> := ["Reduce symptoms", "Improve daily functioning"]

  const DefaultTechniques: seq<string> := ["Regular therapy sessions"]

  /** `generate_therapy_plan` of the `core` package. */
  method GenerateTherapyPlan(kb: KnowledgeBase, similarity: seq<string> -> seq<real>, input: PatientInput)
    returns (result: PlanResult)
    requires kb.Valid()
    ensures result.MissingField? <==> FirstMissing(kb, kb.keys).Some?
    ensures result.MissingField? ==> result.field == FirstMissing(kb, kb.keys).value
    ensures FirstMissing(kb, kb.keys).None? ==>
      var ranked := Ranking(kb, similarity, input.symptoms);
      && (result.NoMatch? <==> ranked == [])
      && (result.NoMatch? ==> result.error == NewNoMatchingConditionsError(input.symptoms, Some(Fired(Rules, input.symptoms))))
      && (result.Planned? ==>
        var plan := result.plan;
        var entry := GetDsm5Criteria(kb, ranked[0].0);
        && plan.identifiedConditions == Firsts(ranked)
        && plan.confidenceScores == FromPairs(ranked)
        && plan.therapyType == entry.name.GetOr(DefaultTherapyType)
        && plan.sessionFrequency == SessionFrequency(input.severity)
        && plan.goals == entry.treatmentGoals.GetOr(DefaultGoals)
        && plan.techniques == entry.recommendedTechniques.GetOr(DefaultTechniques)
        && plan.duration == entry.recommendedDuration.GetOr(DefaultDuration))
  {
    var analysis := AnalyzeSymptoms(kb, input.symptoms, similarity);
    if analysis.KeyError? {
      return MissingField(analysis.field);
    }
    var conditionMatches := analysis.matches;
    if conditionMatches == [] {
      var suggestions := SpecificSuggestions(input.symptoms);
      return NoMatch(NewNoMatchingConditionsError(input.symptoms, Some(suggestions)));
    }
    var identifiedConditions := Firsts(conditionMatches);
    var confidenceScores := FromPairs(conditionMatches);
    var primaryCondition := identifiedConditions[0];
    var dsm5Info := GetDsm5Criteria(kb, primaryCondition);
    var sessionFrequency := SessionFrequency(input.severity);
    var therapyType := dsm5Info.name.GetOr(DefaultTherapyType);
    var goals := dsm5Info.treatmentGoals.GetOr(DefaultGoals);
    var techniques := dsm5Info.recommendedTechniques.GetOr(DefaultTechniques);
    var duration := dsm5Info.recommendedDuration.GetOr(DefaultDuration);
    var validatedTechniques := ValidateTechniques(techniques);
    return Planned(TherapyPlan(identifiedConditions, confidenceScores, therapyType, sessionFrequency, goals,
      validatedTechniques, duration));
  }

  /**
   * When every check passes, the `core` generator passes an empty suggestion
   * list, so the error falls back to its own defaults; otherwise it keeps the
   * specific suggestions.
   */
  lemma CoreSuggestions(symptoms: string)
    ensures var e := NewNoMatchingConditionsError(symptoms, Some(Fired(Rules, symptoms)));
      && (Fired(Rules, symptoms) == [] ==> e.suggestions == DefaultSuggestions)
      && (Fired(Rules, symptoms) != [] ==> e.suggestions == Fired(Rules, symptoms))
  {
  }

  /** Whenever the plan is made, the primary condition's entry carries a name, so the default therapy type is never used. */
  lemma CoreTherapyTypeIsEntryName(kb: KnowledgeBase, scores: seq<real>)
    requires kb.Valid() && FirstMissing(kb, kb.keys).None?
    requires RankedMatches(kb.keys, scores) != []
    ensures var entry := GetDsm5Criteria(kb, RankedMatches(kb.keys, scores)[0].0);
      entry.name.Some? && entry.name.GetOr(DefaultTherapyType) == entry.name.value
  {
    var ranked := RankedMatches(kb.keys, scores);
    RankedConditionsAreKeys(kb.keys, scores);
    assert ranked[0].0 == Firsts(ranked)[0];
    assert ranked[0].0 in kb.keys;
  }
}
