/**
 * The technique catalog: how-to content for each named technique, and a
 * generic record for any name the catalog does not know.
 */
module TechniqueDatabase {
  import opened Wrappers
  import opened Dicts
  import opened Text

  datatype Exercise = Exercise(name: string, duration: string, instructions: seq<string>)

  datatype Resource = Resource(title: string, url: string, kind: string)

  /**
   * A technique record. `resources` stands for the optional "resources"
   * key that the user interface reads with a default of `[]`; no record of
   * the catalog has it.
   */
  datatype Technique = Technique(
    description: string,
    steps: seq<string>,
    exercises: seq<Exercise>,
    resources: Option<seq<Resource>>)

  /** The keys of the record as a Python dictionary. */
  function RecordKeys(t: Technique): set<string> {
    {"description", "steps", "exercises"} + (if t.resources.Some? then {"resources"} else {})
  }

  /** Python truthiness of the record: a dictionary is true when it has a key. */
  predicate IsTruthy(t: Technique) {
    |RecordKeys(t)| > 0
  }

  /** Every part a session page shows is there. */
  predicate IsComplete(t: Technique) {
    && t.description != []
    && t.steps != []
    && t.exercises != []
    && forall j :: 0 <= j < |t.exercises| ==> t.exercises[j].instructions != []
  }

  const DefaultSteps: seq<string> := [
    "Review the technique with your therapist",
    "Set specific goals for the session",
    "Practice the technique",
    "Get feedback and adjust",
    "Plan for home practice"
  ]

  const GuidedPractice := Exercise("Guided Practice", "50 minutes", [
    "Review previous progress",
    "Set today's specific goals",
    "Practice with guidance",
    "Get feedback",
    "Plan next steps"
  ])

  /** The record returned for a name the catalog does not have. */
  function DefaultTechnique(name: string): Technique {
    Technique("A therapeutic technique focusing on " + Lower(name) + ".", DefaultSteps, [GuidedPractice], None)
  }

  /** The catalog's keys, in the source's order. */
  const CatalogKeys: seq<string> := [
    "Cognitive Behavioral Therapy (CBT)",
    "Social Skills Training",
    "Mindfulness Meditation",
    "Regular CBT sessions",
    "Behavioral Activation",
    "Stress Management Techniques",
    "General therapy session",
    "Gradual Exposure Therapy",
    "Cognitive Restructuring",
    "Role-Playing Exercises",
    "Relaxation Techniques",
    "Dialectical Behavior Therapy (DBT)"
  ]

  const Cbt := Technique(
    "A structured therapeutic approach that helps identify and change negative thought patterns and behaviors.",
    [
      "Identify negative thought patterns",
      "Challenge cognitive distortions",
      "Develop coping strategies",
      "Practice behavioral changes",
      "Monitor progress"
    ],
    [
      Exercise("Thought Record Analysis", "50 minutes", [
        "Document triggering situations",
        "Record automatic thoughts",
        "Identify cognitive distortions",
        "Create balanced responses",
        "Practice new thinking patterns"
      ])
    ],
    None)

  const SocialSkillsTraining := Technique(
    "A structured approach to improve social interactions and communication.",
    [
      "Practice active listening",
      "Learn to read body language",
      "Practice conversation skills",
      "Role-play social situations"
    ],
    [
      Exercise("Active Listening Exercise", "15 minutes", [
        "Find a conversation partner",
        "Listen without interrupting",
        "Summarize what you heard",
        "Ask relevant follow-up questions"
      ]),
      Exercise("Body Language Mirror", "10 minutes", [
        "Practice open posture",
        "Maintain appropriate eye contact",
        "Notice others' nonverbal cues"
      ])
    ],
    None)

  const MindfulnessMeditation := Technique(
    "Practices to stay present and aware of thoughts without judgment.",
    [
      "Find a quiet space",
      "Focus on breathing",
      "Observe thoughts without attachment",
      "Return focus when mind wanders"
    ],
    [
      Exercise("5-Minute Breathing", "5 minutes", [
        "Sit comfortably",
        "Close eyes or maintain soft gaze",
        "Focus on natural breath",
        "Count breaths from 1 to 10"
      ])
    ],
    None)

  const RegularCbtSessions := Technique(
    "Regular therapy sessions using Cognitive Behavioral Therapy techniques.",
    [
      "Review previous week's progress",
      "Identify current challenges",
      "Apply CBT techniques",
      "Set goals for next week"
    ],
    [
      Exercise("Thought Challenging", "30 minutes", [
        "Identify a negative thought",
        "Rate your belief in it (0-100%)",
        "Find evidence for and against",
        "Create a balanced perspective"
      ])
    ],
    None)

  const BehavioralActivation := Technique(
    "A structured approach to increase engagement in rewarding activities.",
    [
      "Track daily activities",
      "Rate activities for pleasure/mastery",
      "Schedule enjoyable activities",
      "Monitor mood changes"
    ],
    [
      Exercise("Activity Scheduling", "15 minutes", [
        "List activities you used to enjoy",
        "Rate each activity's difficulty (1-10)",
        "Schedule one easy activity this week",
        "Track your mood before and after"
      ])
    ],
    None)

  const StressManagementTechniques := Technique(
    "Various techniques to manage and reduce stress levels.",
    [
      "Identify stress triggers",
      "Learn relaxation techniques",
      "Practice stress reduction",
      "Monitor stress levels"
    ],
    [
      Exercise("Progressive Muscle Relaxation", "15 minutes", [
        "Find a quiet space",
        "Tense and relax each muscle group",
        "Focus on the sensation",
        "Progress from toes to head"
      ])
    ],
    None)

  const GeneralTherapySession := Technique(
    "A standard therapy session to discuss progress and challenges.",
    [
      "Review recent experiences",
      "Discuss any challenges",
      "Apply learned techniques",
      "Plan for the week ahead"
    ],
    [
      Exercise("Weekly Review", "50 minutes", [
        "Reflect on the past week",
        "Note any difficulties encountered",
        "Celebrate progress made",
        "Set goals for next week"
      ])
    ],
    None)

  const GradualExposureTherapy := Technique(
    "A therapeutic approach that gradually exposes you to anxiety-provoking situations in a controlled, safe environment to reduce fear and avoidance.",
    [
      "Create a fear hierarchy",
      "Start with least anxiety-provoking situations",
      "Practice relaxation techniques",
      "Gradually progress to more challenging situations",
      "Track anxiety levels throughout exposure"
    ],
    [
      Exercise("Situation Exposure Practice", "30 minutes", [
        "Choose a low-anxiety situation from your hierarchy",
        "Rate anxiety before exposure (0-10)",
        "Stay in the situation until anxiety reduces",
        "Practice breathing exercises during exposure",
        "Record your experience and progress"
      ])
    ],
    None)

  const CognitiveRestructuring := Technique(
    "A technique to identify and challenge negative thought patterns and replace them with more balanced, realistic thinking.",
    [
      "Identify automatic negative thoughts",
      "Examine evidence for and against",
      "Consider alternative perspectives",
      "Develop balanced thoughts",
      "Practice new thinking patterns"
    ],
    [
      Exercise("Thought Record Exercise", "25 minutes", [
        "Write down a troubling situation",
        "Identify automatic negative thoughts",
        "List evidence supporting and challenging thoughts",
        "Create a balanced alternative thought",
        "Rate belief in new perspective"
      ])
    ],
    None)

  const RolePlayingExercises := Technique(
    "Practice real-life situations in a safe environment to build confidence and develop new social skills.",
    [
      "Choose a challenging situation",
      "Plan your response",
      "Practice with feedback",
      "Refine your approach",
      "Gradually increase difficulty"
    ],
    [
      Exercise("Social Scenario Practice", "30 minutes", [
        "Select a common social situation",
        "Write out your ideal response",
        "Practice with a therapist or trusted person",
        "Get feedback on your approach",
        "Try alternative responses"
      ])
    ],
    None)

  const RelaxationTechniques := Technique(
    "A collection of methods to reduce physical and mental tension through controlled breathing and muscle relaxation.",
    [
      "Find a quiet, comfortable space",
      "Focus on your breathing",
      "Practice progressive muscle relaxation",
      "Use guided imagery",
      "Maintain regular practice"
    ],
    [
      Exercise("Progressive Muscle Relaxation", "20 minutes", [
        "Lie down or sit comfortably",
        "Tense and relax each muscle group",
        "Focus on the contrast between tension and relaxation",
        "Maintain slow, deep breathing",
        "Notice the feeling of relaxation spreading"
      ])
    ],
    None)

  const Dbt := Technique(
    "A comprehensive treatment combining cognitive-behavioral techniques with mindfulness and acceptance strategies.",
    [
      "Practice mindfulness skills",
      "Develop emotion regulation",
      "Improve interpersonal effectiveness",
      "Build distress tolerance",
      "Apply skills to daily life"
    ],
    [
      Exercise("Emotion Regulation Practice", "45 minutes", [
        "Identify current emotions",
        "Use mindfulness to observe feelings",
        "Practice acceptance strategies",
        "Apply DBT skills",
        "Plan for skill practice"
      ])
    ],
    None)

  /** No two catalog names share both their length and their first letter. */
  lemma CatalogKeysDistinct()
    ensures forall i, j :: 0 <= i < j < |CatalogKeys| ==> CatalogKeys[i] != CatalogKeys[j]
  {
    forall i, j | 0 <= i < j < |CatalogKeys|
      ensures CatalogKeys[i] != CatalogKeys[j]
    {
      assert |CatalogKeys[i]| != |CatalogKeys[j]| || CatalogKeys[i][0] != CatalogKeys[j][0];
    }
  }

  /** The catalog as a dictionary. */
  function Catalog(): (d: Dict<string, Technique>)
    ensures d.Valid() && d.keys == CatalogKeys && |d.keys| == 12
  {
    CatalogKeysDistinct();
    Dict(CatalogKeys, map[
      "Cognitive Behavioral Therapy (CBT)" := Cbt,
      "Social Skills Training" := SocialSkillsTraining,
      "Mindfulness Meditation" := MindfulnessMeditation,
      "Regular CBT sessions" := RegularCbtSessions,
      "Behavioral Activation" := BehavioralActivation,
      "Stress Management Techniques" := StressManagementTechniques,
      "General therapy session" := GeneralTherapySession,
      "Gradual Exposure Therapy" := GradualExposureTherapy,
      "Cognitive Restructuring" := CognitiveRestructuring,
      "Role-Playing Exercises" := RolePlayingExercises,
      "Relaxation Techniques" := RelaxationTechniques,
      "Dialectical Behavior Therapy (DBT)" := Dbt
    ])
  }

  /** `get_technique_info`: the catalog entry under exactly this name, else the default record. */
  function GetTechniqueInfo(name: string): (t: Technique)
    ensures name in Catalog().keys ==> t == Catalog().values[name]
    ensures name !in Catalog().keys ==> t == DefaultTechnique(name)
  {
    Catalog().Get(name, DefaultTechnique(name))
  }

  /** Every lookup gives a truthy, complete record without resources. */
  lemma TechniqueInfoComplete(name: string)
    ensures var t := GetTechniqueInfo(name);
      IsTruthy(t) && IsComplete(t) && "resources" !in RecordKeys(t)
  {
    var t := GetTechniqueInfo(name);
    if name in Catalog().keys {
      CatalogComplete();
    }
    assert t.resources.None?;
    assert "description" in RecordKeys(t);
  }

  /** The twelve records of the catalog, in key order. */
  const CatalogRecords: seq<Technique> := [
    Cbt, SocialSkillsTraining, MindfulnessMeditation, RegularCbtSessions,
    BehavioralActivation, StressManagementTechniques, GeneralTherapySession, GradualExposureTherapy,
    CognitiveRestructuring, RolePlayingExercises, RelaxationTechniques, Dbt
  ]

  /** Every catalog value is one of its twelve records. */
  lemma CatalogValues()
    ensures forall k :: k in Catalog().values ==> Catalog().values[k] in CatalogRecords
  {
  }

  /** Each of the twelve records is complete and has no resources. */
  lemma RecordsComplete()
    ensures forall i :: 0 <= i < |CatalogRecords| ==> IsComplete(CatalogRecords[i]) && CatalogRecords[i].resources.None?
  {
  }

  /** Every catalog record is complete and has no resources. */
  lemma CatalogComplete()
    ensures forall k :: k in Catalog().values ==> IsComplete(Catalog().values[k]) && Catalog().values[k].resources.None?
  {
    CatalogValues();
    RecordsComplete();
    forall k | k in Catalog().values
      ensures IsComplete(Catalog().values[k]) && Catalog().values[k].resources.None?
    {
      var i :| 0 <= i < |CatalogRecords| && CatalogRecords[i] == Catalog().values[k];
    }
  }

  /** The default record: its description names the technique in lower case; five steps; one 50-minute guided exercise with five instructions. */
  lemma DefaultRecordShape(name: string)
    ensures name !in Catalog().keys ==>
      var t := GetTechniqueInfo(name);
      && t.description == "A therapeutic technique focusing on " + Lower(name) + "."
      && |t.steps| == 5
      && |t.exercises| == 1
      && t.exercises[0].name == "Guided Practice"
      && t.exercises[0].duration == "50 minutes"
      && |t.exercises[0].instructions| == 5
  {
  }

  /** "Social Skills Training" is the only catalog entry with two exercises; every other entry has one. */
  lemma ExerciseCounts()
    ensures forall k :: k in Catalog().keys ==>
      |Catalog().values[k].exercises| == if k == "Social Skills Training" then 2 else 1
  {
  }

  /** A name that differs from every catalog name in length or in its letter at `pos` is not a catalog name. */
  lemma NotACatalogKey(name: string, pos: nat)
    requires forall i :: 0 <= i < |CatalogKeys| ==>
      |CatalogKeys[i]| != |name| || (pos < |name| && CatalogKeys[i][pos] != name[pos])
    ensures name !in CatalogKeys
  {
  }

  /**
   * Lookup is exact and case-sensitive: three fallback techniques of the
   * plan generator differ from catalog keys only in letter case, or are not
   * there at all, so they get the default record.
   */
  lemma AppFallbacksGetDefaultRecord()
    ensures "Behavioral Activation" in CatalogKeys && "Stress Management Techniques" in CatalogKeys
    ensures "Mindfulness exercises" !in CatalogKeys
    ensures "Behavioral activation" !in CatalogKeys
    ensures "Stress management techniques" !in CatalogKeys
  {
    assert CatalogKeys[4] == "Behavioral Activation" && CatalogKeys[5] == "Stress Management Techniques";
    MindfulnessExercisesIsNoKey();
    BehavioralActivationLowerIsNoKey();
    StressManagementLowerIsNoKey();
  }

  /** The catalog spells it "Mindfulness Meditation". */
  lemma MindfulnessExercisesIsNoKey()
    ensures "Mindfulness exercises" !in CatalogKeys
  {
    NotACatalogKey("Mindfulness exercises", 0);
  }

  /** The catalog capitalises "Activation". */
  lemma BehavioralActivationLowerIsNoKey()
    ensures "Behavioral activation" !in CatalogKeys
  {
    NotACatalogKey("Behavioral activation", 11);
  }

  /** The catalog capitalises "Management Techniques". */
  lemma StressManagementLowerIsNoKey()
    ensures "Stress management techniques" !in CatalogKeys
  {
    NotACatalogKey("Stress management techniques", 7);
  }

  /** "Regular CBT sessions" is a key, but the session names the plan generators build by default are not. */
  lemma RegularSessionsGetDefaultRecord()
    ensures "Regular CBT sessions" in CatalogKeys
    ensures "Regular cbt sessions" !in CatalogKeys
    ensures "Regular therapy sessions" !in CatalogKeys
  {
    assert CatalogKeys[3] == "Regular CBT sessions";
    NotACatalogKey("Regular cbt sessions", 8);
    NotACatalogKey("Regular therapy sessions", 0);
  }
}
