/** The records the planner passes around: the request, the knowledge-base entry and the plan. */
module Models {
  import opened Wrappers
  import opened Dicts

  /** `SeverityLevel`, a string enum. */
  datatype Severity = Low | Moderate | Severe {
    /** The enum member's string value. */
    function Value(): string {
      match this
      case Low => "low"
      case Moderate => "moderate"
      case Severe => "severe"
    }
  }

  datatype Schedule = Schedule(availability: seq<string>)

  datatype PatientInput = PatientInput(symptoms: string, severity: Severity, schedule: Schedule)

  datatype TherapyPlan = TherapyPlan(
    identifiedConditions: seq<string>,
    confidenceScores: Dict<string, real>,
    therapyType: string,
    sessionFrequency: string,
    goals: seq<string>,
    techniques: seq<string>,
    duration: string)

  /**
   * One condition of the knowledge base, as read from its JSON document.
   * Every field may be absent; the planner reads each with a default.
   */
  datatype ConditionEntry = ConditionEntry(
    name: Option<string>,
    diagnosticCriteria: Option<seq<string>>,
    treatmentGoals: Option<seq<string>>,
    recommendedTechniques: Option<seq<string>>,
    recommendedDuration: Option<string>)

  /** The empty record `{}`. */
  const NoEntry := ConditionEntry(None, None, None, None, None)

  /** Condition key to entry, in the document's order. */
  type KnowledgeBase = Dict<string, ConditionEntry>
}
