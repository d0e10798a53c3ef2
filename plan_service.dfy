/**
 * The plan generator of the application: symptom analysis, the suggestions
 * given when nothing matches, and the assembly of the therapy plan from the
 * primary condition's knowledge-base entry and its research articles.
 */
module PlanService {
  import opened Wrappers
  import opened Dicts
  import opened Text
  import opened Models
  import opened Exceptions
  import opened TechniqueDatabase
  import opened ResearchService
  import opened ResearchDatabase
  import opened Sorting

  // ---------------------------------------------------------------- suggestions

  /** The four checks made on symptoms that matched no condition. */
  datatype Rule = TooShort | NoFeeling | NoTiming | NoImpact {

    /** Whether the description lacks what the rule asks for. */
    predicate Fires(symptoms: string) {
      match this
      case TooShort => WordCount(symptoms) < 10
      case NoFeeling => !Contains(Lower(symptoms), "feel")
      case NoTiming => !Contains(Lower(symptoms), "when")
      case NoImpact => !Contains(Lower(symptoms), "impact") && !Contains(Lower(symptoms), "affect")
    }

    /** The suggestion the rule adds. */
    function Text(): string {
      match this
      case TooShort => "Please provide a more detailed description of your symptoms"
      case NoFeeling => "Describe how these symptoms make you feel"
      case NoTiming => "Include when these symptoms typically occur"
      case NoImpact => "Explain how these symptoms impact your daily life"
    }
  }

  /** The rules, in the order their suggestions are listed. */
  const Rules: seq<Rule> := [TooShort, NoFeeling, NoTiming, NoImpact]

  /** The suggestions of the rules of `rules` that fire, in order. */
  function Fired(rules: seq<Rule>, symptoms: string): (texts: seq<string>)
    ensures |texts| <= |rules|
  {
    if rules == [] then []
    else
      var n := |rules| - 1;
      Fired(rules[..n], symptoms) + (if rules[n].Fires(symptoms) then [rules[n].Text()] else [])
  }

  /** The suggestions used when every rule is satisfied. */
  const GenericSuggestions: seq<string> := [
    "Include how long you've been experiencing these symptoms",
    "Mention any triggers you've noticed",
    "Describe any changes in sleep, appetite, or energy levels",
    "Note any patterns in when symptoms get better or worse",
    "Include any past treatments or coping strategies you've tried"
  ]

  /** The suggestions the application attaches to its error. */
  function AppSuggestions(symptoms: string): (suggestions: seq<string>)
    ensures suggestions != []
  {
    var fired := Fired(Rules, symptoms);
    if fired == [] then GenericSuggestions else fired
  }

  lemma {:induction false} FiredMembers(rules: seq<Rule>, symptoms: string)
    ensures forall t :: t in Fired(rules, symptoms) <==> exists r :: r in rules && r.Fires(symptoms) && r.Text() == t
  {
    if rules != [] {
      var n := |rules| - 1;
      FiredMembers(rules[..n], symptoms);
      assert rules == rules[..n] + [rules[n]];
    }
  }

  /** A suggestion is given exactly when its rule fires. */
  lemma SuggestionIffRule(symptoms: string, r: Rule)
    ensures r.Text() in Fired(Rules, symptoms) <==> r.Fires(symptoms)
  {
    FiredMembers(Rules, symptoms);
    assert r in Rules;
  }

  /** The suggestions of the first `k` rules come first. */
  lemma {:induction false} FiredPrefix(rules: seq<Rule>, symptoms: string, k: nat)
    requires k <= |rules|
    ensures Fired(rules[..k], symptoms) <= Fired(rules, symptoms)
  {
    if k < |rules| {
      var n := |rules| - 1;
      assert rules[..n][..k] == rules[..k];
      FiredPrefix(rules[..n], symptoms, k);
    } else {
      assert rules[..k] == rules;
    }
  }

  /** The specific suggestions keep the order of the rules. */
  lemma FiredOrdered(rules: seq<Rule>, symptoms: string, i: nat, j: nat)
    requires i < j < |rules| && rules[i].Fires(symptoms) && rules[j].Fires(symptoms)
    ensures exists p, q ::
      && 0 <= p < q < |Fired(rules, symptoms)|
      && Fired(rules, symptoms)[p] == rules[i].Text()
      && Fired(rules, symptoms)[q] == rules[j].Text()
  {
    FiredPosition(rules, symptoms, i);
    FiredPosition(rules, symptoms, j);
    assert rules[..j][..i + 1] == rules[..i + 1];
    FiredPrefix(rules[..j], symptoms, i + 1);
  }

  /** A firing rule's suggestion stands right after those of the rules before it. */
  lemma FiredPosition(rules: seq<Rule>, symptoms: string, i: nat)
    requires i < |rules| && rules[i].Fires(symptoms)
    ensures |Fired(rules[..i], symptoms)| < |Fired(rules, symptoms)|
    ensures Fired(rules, symptoms)[|Fired(rules[..i], symptoms)|] == rules[i].Text()
    ensures |Fired(rules[..i + 1], symptoms)| == |Fired(rules[..i], symptoms)| + 1
  {
    assert rules[..i + 1][..i] == rules[..i];
    FiredPrefix(rules, symptoms, i + 1);
  }

  /** `Fired` over the four rules, written out. */
  lemma FiredRules(symptoms: string)
    ensures Fired(Rules, symptoms) ==
      (if TooShort.Fires(symptoms) then [TooShort.Text()] else [])
      + (if NoFeeling.Fires(symptoms) then [NoFeeling.Text()] else [])
      + (if NoTiming.Fires(symptoms) then [NoTiming.Text()] else [])
      + (if NoImpact.Fires(symptoms) then [NoImpact.Text()] else [])
  {
    assert Rules[..3] == [TooShort, NoFeeling, NoTiming];
    assert Rules[..3][..2] == [TooShort, NoFeeling];
    assert Rules[..3][..2][..1] == [TooShort];
    assert Rules[..3][..2][..1][..0] == [];
    assert Fired(Rules[..3][..2][..1], symptoms) == (if TooShort.Fires(symptoms) then [TooShort.Text()] else []);
    assert Fired(Rules[..3][..2], symptoms) == Fired(Rules[..3][..2][..1], symptoms)
      + (if NoFeeling.Fires(symptoms) then [NoFeeling.Text()] else []);
    assert Fired(Rules[..3], symptoms) == Fired(Rules[..3][..2], symptoms)
      + (if NoTiming.Fires(symptoms) then [NoTiming.Text()] else []);
  }

  /** An empty description fails every check. */
  lemma EmptySymptomsFireAll()
    ensures Fired(Rules, "") == [TooShort.Text(), NoFeeling.Text(), NoTiming.Text(), NoImpact.Text()]
  {
    assert !Contains("", "feel") && !Contains("", "when") && !Contains("", "impact") && !Contains("", "affect");
    FiredRules("");
  }

  /** Each rule fires exactly when its check in the source fails. */
  lemma ChecksFire(symptoms: string)
    ensures TooShort.Fires(symptoms) == (WordCount(symptoms) < 10)
    ensures NoFeeling.Fires(symptoms) == !Contains(Lower(symptoms), "feel")
    ensures NoTiming.Fires(symptoms) == !Contains(Lower(symptoms), "when")
    ensures NoImpact.Fires(symptoms) == (!Contains(Lower(symptoms), "impact") && !Contains(Lower(symptoms), "affect"))
  {
  }

  /** The four checks, in order, each adding its suggestion when it fails. */
  method SpecificSuggestions(symptoms: string) returns (suggestions: seq<string>)
    ensures suggestions == Fired(Rules, symptoms)
  {
    FiredRules(symptoms);
    ChecksFire(symptoms);
    var symptomsLength := WordCount(symptoms);
    suggestions := [];
    if symptomsLength < 10 {
      suggestions := suggestions + [TooShort.Text()];
    }
    ghost var one := suggestions;
    if !Contains(Lower(symptoms), "feel") {
      suggestions := suggestions + [NoFeeling.Text()];
    }
    ghost var two := suggestions;
    if !Contains(Lower(symptoms), "when") {
      suggestions := suggestions + [NoTiming.Text()];
    }
    ghost var three := suggestions;
    if !Contains(Lower(symptoms), "impact") && !Contains(Lower(symptoms), "affect") {
      suggestions := suggestions + [NoImpact.Text()];
    }
    assert one == if TooShort.Fires(symptoms) then [TooShort.Text()] else [];
    assert two == one + if NoFeeling.Fires(symptoms) then [NoFeeling.Text()] else [];
    assert three == two + if NoTiming.Fires(symptoms) then [NoTiming.Text()] else [];
  }

  // ---------------------------------------------------------------- plan details

  /** Severity level to session frequency. */
  const SessionFrequencies: Dict<string, string> :=
    Dict(["low", "moderate", "severe"], map["low" := "bi-weekly", "moderate" := "weekly", "severe" := "twice-weekly"])

  /** `session_frequencies[patient_input.severity.value]`: every level has an entry, so the lookup never fails. */
  function SessionFrequency(severity: Severity): (frequency: string)
    ensures severity.Value() in SessionFrequencies.keys
    ensures severity == Low ==> frequency == "bi-weekly"
    ensures severity == Moderate ==> frequency == "weekly"
    ensures severity == Severe ==> frequency == "twice-weekly"
  {
    SessionFrequencies.values[severity.Value()]
  }

  const DefaultTherapyType := "Cognitive Behavioral Therapy"

  const DefaultGoals: seq<string> := ["Reduce symptom severity", "Develop coping mechanisms", "Improve daily functioning"]

  /** The techniques used when the entry recommends none; the first names the therapy type. */
  function DefaultTechniques(therapyType: string): seq<string> {
    ["Regular " + therapyType + " sessions", "Mindfulness exercises", "Behavioral activation", "Stress management techniques"]
  }

  const DefaultDuration := "12-16 weeks"

  /** The first key of the treatment tally, or the default therapy type when the tally is empty. */
  function TherapyTypeFrom(therapyTypes: seq<string>): string {
    if therapyTypes != [] then therapyTypes[0] else DefaultTherapyType
  }

  /** The therapy type chosen for a condition: the first treatment keyword its first five articles mention. */
  function ResearchTherapyType(condition: string): string {
    TherapyTypeFrom(TallyKeys(GetScholarlyArticles(condition, DefaultMaxResults)))
  }

  /** The therapy type is a treatment keyword some article mentions, and the default only when none mentions one. */
  lemma ResearchTherapyTypeIsKeyword(condition: string)
    ensures var articles := GetScholarlyArticles(condition, DefaultMaxResults);
      && (ResearchTherapyType(condition) == DefaultTherapyType <==>
          forall k :: k in Keywords ==> MentioningTitles(articles, k) == [])
      && (ResearchTherapyType(condition) != DefaultTherapyType ==>
          ResearchTherapyType(condition) in Keywords && MentioningTitles(articles, ResearchTherapyType(condition)) != [])
  {
    var articles := GetScholarlyArticles(condition, DefaultMaxResults);
    TallyKeysMembers(articles);
    var keys := TallyKeys(articles);
    if keys != [] {
      assert keys[0] in keys;
    }
    assert DefaultTherapyType !in Keywords;
  }

  /**
   * The therapy type is the keyword mentioned earliest among the condition's
   * first five articles, ties going to the keyword listed first.
   */
  lemma ResearchTherapyTypeEarliest(condition: string)
    requires ResearchTherapyType(condition) != DefaultTherapyType
    ensures var articles := GetScholarlyArticles(condition, DefaultMaxResults);
      var t := ResearchTherapyType(condition);
      forall k :: k in Keywords && MentioningTitles(articles, k) != [] ==>
        || FirstMention(articles, t) < FirstMention(articles, k)
        || (FirstMention(articles, t) == FirstMention(articles, k) && Rank(t) <= Rank(k))
  {
    TallyFirstKey(GetScholarlyArticles(condition, DefaultMaxResults));
  }

  /** The article on panic disorder names CBT before any other treatment, so the condition gets "cbt". */
  lemma PanicGetsCbt()
    ensures ResearchTherapyType("panic") == "cbt"
  {
    var t := AbstractText(PanicLongTerm);
    assert t[93] == 'c' && t[94] == 'b' && t[95] == 't';
    ContainsAt(t, "cbt", 93);
    CbtFirst([PanicLongTerm]);
  }

  /** When the first article mentions "cbt", it is the first key of the tally. */
  lemma {:induction false} CbtFirst(articles: seq<Article>)
    requires articles != [] && Mentions(articles[0], "cbt")
    ensures TallyKeys(articles) != [] && TallyKeys(articles)[0] == "cbt"
  {
    var n := |articles| - 1;
    if n == 0 {
      AddMentionedMembers([], articles[0], |Keywords|);
      assert Keywords[..|Keywords|] == Keywords;
      AddMentionedFirst(articles[0], |Keywords|);
    } else {
      assert articles[..n][0] == articles[0];
      CbtFirst(articles[..n]);
      AddMentionedPrefix(TallyKeys(articles[..n]), articles[n], |Keywords|);
    }
  }

  /** A condition without articles gets the default therapy type. */
  lemma UnknownConditionDefaultTherapy(condition: string)
    requires condition !in TableKeys
    ensures ResearchTherapyType(condition) == DefaultTherapyType
  {
  }

  // ---------------------------------------------------------------- the plan

  /** Keeps every technique whose catalog record is truthy, in order. */
  method ValidateTechniques(techniques: seq<string>) returns (validated: seq<string>)
    ensures validated == techniques
  {
    validated := [];
    for i := 0 to |techniques|
      invariant validated == techniques[..i]
    {
      var techniqueInfo := GetTechniqueInfo(techniques[i]);
      TechniqueInfoComplete(techniques[i]);
      if IsTruthy(techniqueInfo) {
        validated := validated + [techniques[i]];
      }
    }
  }

  /**
   * The techniques that have a record of their own in the catalog, in order:
   * what the validation step evidently means to keep.
   */
  function CatalogTechniques(techniques: seq<string>): (kept: seq<string>)
    ensures |kept| <= |techniques|
    ensures forall t :: t in kept <==> t in techniques && t in CatalogKeys
  {
    if techniques == [] then []
    else
      var n := |techniques| - 1;
      assert techniques == techniques[..n] + [techniques[n]];
      CatalogTechniques(techniques[..n]) + CatalogTechnique(techniques[n])
  }

  /** One technique kept if it is a catalog key, dropped otherwise. */
  function CatalogTechnique(technique: string): (kept: seq<string>)
    ensures kept == [technique] || kept == []
    ensures technique in kept <==> technique in CatalogKeys
  {
    if technique in CatalogKeys then [technique] else []
  }

  /** Filtering a non-empty list filters all but its last technique, then that one. */
  lemma CatalogTechniquesLast(techniques: seq<string>)
    requires techniques != []
    ensures CatalogTechniques(techniques)
      == CatalogTechniques(techniques[..|techniques| - 1]) + CatalogTechnique(techniques[|techniques| - 1])
  {
  }

  /** The filter keeps order: filtering a concatenation filters each part and concatenates the results. */
  lemma {:induction false} CatalogTechniquesAppend(front: seq<string>, back: seq<string>)
    ensures CatalogTechniques(front + back) == CatalogTechniques(front) + CatalogTechniques(back)
  {
    if back == [] {
      assert front + back == front;
    } else {
      var n := |back| - 1;
      var all := front + back;
      assert all[..|all| - 1] == front + back[..n];
      assert all[|all| - 1] == back[n];
      CatalogTechniquesLast(all);
      CatalogTechniquesLast(back);
      calc {
        CatalogTechniques(all);
        CatalogTechniques(front + back[..n]) + CatalogTechnique(back[n]);
        { CatalogTechniquesAppend(front, back[..n]); }
        (CatalogTechniques(front) + CatalogTechniques(back[..n])) + CatalogTechnique(back[n]);
        CatalogTechniques(front) + (CatalogTechniques(back[..n]) + CatalogTechnique(back[n]));
        CatalogTechniques(front) + CatalogTechniques(back);
      }
    }
  }

  /**
   * Three of the four fallback techniques are not catalog keys: two differ
   * from one only in letter case, one is not there at all. The validation
   * step keeps them; the catalog filter keeps at most the session technique.
   */
  lemma FallbackTechniquesUnknown(therapyType: string)
    ensures var fallback := DefaultTechniques(therapyType);
      && (forall i :: 1 <= i < |fallback| ==> fallback[i] !in Catalog().keys)
      && (forall t :: t in CatalogTechniques(fallback) ==> t == fallback[0])
  {
    AppFallbacksGetDefaultRecord();
  }

  /** A plan, the no-match error, or the `KeyError` of a knowledge-base entry missing a field. */
  datatype PlanResult = Planned(plan: TherapyPlan) | NoMatch(error: NoMatchingConditionsError) | MissingField(field: string)

  /** The ranked matches of `symptoms`, once every entry has its name and criteria. */
  function Ranking(kb: KnowledgeBase, similarity: seq<string> -> seq<real>, symptoms: string): seq<Match>
    requires kb.Valid() && FirstMissing(kb, kb.keys).None?
  {
    RankedMatches(kb.keys, similarity(CriteriaTexts(kb, kb.keys) + [symptoms]))
  }

  /**
   * `generate_therapy_plan`. The knowledge base and the similarity function
   * stand for the research service's loaded data and its vectoriser.
   */
  method GenerateTherapyPlan(kb: KnowledgeBase, similarity: seq<string> -> seq<real>, input: PatientInput)
    returns (result: PlanResult)
    requires kb.Valid()
    ensures result.MissingField? <==> FirstMissing(kb, kb.keys).Some?
    ensures result.MissingField? ==> result.field == FirstMissing(kb, kb.keys).value
    ensures FirstMissing(kb, kb.keys).None? ==>
      var ranked := Ranking(kb, similarity, input.symptoms);
      && (result.NoMatch? <==> ranked == [])
      && (result.NoMatch? ==> result.error == NewNoMatchingConditionsError(input.symptoms, Some(AppSuggestions(input.symptoms))))
      && (result.Planned? ==>
        var plan := result.plan;
        var entry := GetDsm5Criteria(kb, ranked[0].0);
        var therapyType := ResearchTherapyType(ranked[0].0);
        && plan.identifiedConditions == Firsts(ranked)
        && plan.confidenceScores == FromPairs(ranked)
        && plan.therapyType == therapyType
        && plan.sessionFrequency == SessionFrequency(input.severity)
        && plan.goals == entry.treatmentGoals.GetOr(DefaultGoals)
        && plan.techniques == entry.recommendedTechniques.GetOr(DefaultTechniques(therapyType))
        && plan.duration == entry.recommendedDuration.GetOr(DefaultDuration))
  {
    var analysis := AnalyzeSymptoms(kb, input.symptoms, similarity);
    if analysis.KeyError? {
      return MissingField(analysis.field);
    }
    var conditionMatches := analysis.matches;
    if conditionMatches == [] {
      var suggestions := SpecificSuggestions(input.symptoms);
      if suggestions == [] {
        suggestions := GenericSuggestions;
      }
      return NoMatch(NewNoMatchingConditionsError(input.symptoms, Some(suggestions)));
    }
    var identifiedConditions := Firsts(conditionMatches);
    var confidenceScores := FromPairs(conditionMatches);
    var primaryCondition := identifiedConditions[0];
    var dsm5Info := GetDsm5Criteria(kb, primaryCondition);
    var articles := GetScholarlyArticles(primaryCondition, DefaultMaxResults);
    var treatmentAnalysis := AnalyzeTreatmentEffectiveness(articles);
    var therapyType := TherapyTypeFrom(treatmentAnalysis.keys);
    var sessionFrequency := SessionFrequency(input.severity);
    var goals := dsm5Info.treatmentGoals.GetOr(DefaultGoals);
    var techniques := dsm5Info.recommendedTechniques.GetOr(DefaultTechniques(therapyType));
    var duration := dsm5Info.recommendedDuration.GetOr(DefaultDuration);
    var validatedTechniques := ValidateTechniques(techniques);
    return Planned(TherapyPlan(identifiedConditions, confidenceScores, therapyType, sessionFrequency, goals,
      validatedTechniques, duration));
  }

  // ---------------------------------------------------------------- properties of the plan

  /**
   * The plan's conditions are knowledge-base keys, each listed once, and the
   * confidence scores list the same conditions in the same order, each with
   * its own score.
   */
  lemma PlanConditions(kb: KnowledgeBase, scores: seq<real>)
    requires kb.Valid()
    ensures var ranked := RankedMatches(kb.keys, scores);
      && Distinct(Firsts(ranked))
      && (forall c :: c in Firsts(ranked) ==> c in kb.keys)
      && FromPairs(ranked).keys == Firsts(ranked)
      && (forall i :: 0 <= i < |ranked| ==> FromPairs(ranked).values[ranked[i].0] == ranked[i].1)
  {
    var ranked := RankedMatches(kb.keys, scores);
    RankedMatchesDistinct(kb.keys, scores);
    FromPairsDistinct(ranked);
    RankedConditionsAreKeys(kb.keys, scores);
  }

  lemma RankedConditionsAreKeys(conditions: seq<string>, scores: seq<real>)
    ensures forall c :: c in Firsts(RankedMatches(conditions, scores)) ==> c in conditions
  {
    var ranked := RankedMatches(conditions, scores);
    RankedMatchesMembers(conditions, scores);
    forall c | c in Firsts(ranked) ensures c in conditions {
      var i :| 0 <= i < |ranked| && Firsts(ranked)[i] == c;
      assert (ranked[i].0, ranked[i].1) in ranked;
      var j :| 0 <= j < |conditions| && j < |scores| && conditions[j] == ranked[i].0 && scores[j] == ranked[i].1;
      assert conditions[j] == c;
    }
  }

  /** Every confidence score is a similarity score of its condition and lies above the threshold; the primary condition's is the highest. */
  lemma PlanScores(conditions: seq<string>, scores: seq<real>)
    ensures var ranked := RankedMatches(conditions, scores);
      && (forall i :: 0 <= i < |ranked| ==> ranked[i].1 > Threshold)
      && (forall i :: 0 <= i < |ranked| ==>
            exists j :: 0 <= j < |conditions| && j < |scores| && conditions[j] == ranked[i].0 && scores[j] == ranked[i].1)
      && (forall i :: 0 <= i < |ranked| ==> ranked[0].1 >= ranked[i].1)
  {
    var ranked := RankedMatches(conditions, scores);
    RankedMatchesMembers(conditions, scores);
    RankedMatchesSorted(conditions, scores);
    forall i | 0 <= i < |ranked|
      ensures ranked[i].1 > Threshold
      ensures exists j :: 0 <= j < |conditions| && j < |scores| && conditions[j] == ranked[i].0 && scores[j] == ranked[i].1
    {
      assert (ranked[i].0, ranked[i].1) in ranked;
    }
  }

  /** A condition scoring above the threshold is never left out of the plan. */
  lemma PlanKeepsEveryMatch(kb: KnowledgeBase, scores: seq<real>, j: nat)
    requires kb.Valid() && j < |kb.keys| && j < |scores| && scores[j] > Threshold
    ensures kb.keys[j] in Firsts(RankedMatches(kb.keys, scores))
  {
    var ranked := RankedMatches(kb.keys, scores);
    var pairs := Zip(kb.keys, scores);
    var p := (kb.keys[j], scores[j]);
    assert pairs[j] == p;
    AboveThresholdMembers(pairs);
    SortPermutes(AboveThreshold(pairs), ScoreLe);
    assert p in multiset(AboveThreshold(pairs));
    assert p in multiset(ranked);
    var i :| 0 <= i < |ranked| && ranked[i] == (kb.keys[j], scores[j]);
    assert Firsts(ranked)[i] == kb.keys[j];
  }

  /** The suggestions of the application are never replaced by the error's own defaults. */
  lemma AppSuggestionsKept(symptoms: string)
    ensures NewNoMatchingConditionsError(symptoms, Some(AppSuggestions(symptoms))).suggestions == AppSuggestions(symptoms)
    ensures Fired(Rules, symptoms) == [] ==> AppSuggestions(symptoms) == GenericSuggestions
  {
  }
}
