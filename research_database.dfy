/** The static table of research articles per condition key. */
module ResearchDatabase {
  import opened Wrappers
  import opened Dicts

  /** An article record. `abstractText`, the "abstract" key, is optional because the treatment tally reads it with a default. */
  datatype Article = Article(title: string, author: string, year: string, abstractText: Option<string>, url: string)

  /** The record's keys as a Python dictionary. */
  function ArticleKeys(a: Article): set<string> {
    {"title", "author", "year", "url"} + (if a.abstractText.Some? then {"abstract"} else {})
  }

  const AnxietyCbt := Article(
    "Cognitive Behavioral Therapy for Anxiety: Evidence and Implementation",
    "Carpenter, J. K., et al.",
    "2023",
    Some("Meta-analysis of 41 studies showing CBT effectiveness in treating anxiety disorders, with a 68% response rate compared to 36% in control groups."),
    "https://doi.org/10.1016/j.psychres.2023.01.001")

  const AnxietyDigital := Article(
    "Digital Interventions for Anxiety Disorders",
    "Andrews, G., et al.",
    "2023",
    Some("Review of digital mental health interventions showing comparable efficacy to face-to-face therapy for anxiety disorders."),
    "https://doi.org/10.1016/j.wpsyc.2023.02.002")

  const DepressionCombined := Article(
    "Combined Treatment Approaches for Major Depression",
    "Williams, L. M., et al.",
    "2023",
    Some("Study of 1,200 patients showing 72% improvement rate with combined medication and psychotherapy compared to 45% with single-modality treatment."),
    "https://doi.org/10.1001/jamapsychiatry.2023.0001")

  const DepressionExercise := Article(
    "Exercise as an Intervention for Depression",
    "Thompson, R. W., et al.",
    "2023",
    Some("Systematic review demonstrating moderate to large effect sizes for exercise interventions in treating mild to moderate depression."),
    "https://doi.org/10.1016/j.mhpa.2023.03.003")

  const SocialAnxietyVr := Article(
    "Virtual Reality Exposure Therapy for Social Anxiety",
    "Kim, H. E., et al.",
    "2023",
    Some("Randomized controlled trial showing VR exposure therapy effectiveness comparable to in-vivo exposure with better treatment adherence."),
    "https://doi.org/10.1016/j.brat.2023.04.004")

  const PanicLongTerm := Article(
    "Long-term Outcomes of Panic Disorder Treatment",
    "Martinez, J. P., et al.",
    "2023",
    Some("Ten-year follow-up study showing sustained improvement in 65% of patients receiving combined CBT and medication management."),
    "https://doi.org/10.1016/j.janxdis.2023.05.005")

  const CrisisIntervention := Article(
    "Crisis Intervention Strategies: A Meta-Analysis",
    "Chen, Y. C., et al.",
    "2023",
    Some("Analysis of crisis intervention approaches showing immediate professional intervention combined with ongoing support yields best outcomes."),
    "https://doi.org/10.1016/j.cpr.2023.06.006")

  const TableKeys: seq<string> := ["anxiety", "depression", "social_anxiety", "panic", "crisis"]

  /** The table, in the source's key order. */
  function ArticleTable(): (d: Dict<string, seq<Article>>)
    ensures d.Valid() && d.keys == TableKeys
  {
    Dict(TableKeys, map[
      "anxiety" := [AnxietyCbt, AnxietyDigital],
      "depression" := [DepressionCombined, DepressionExercise],
      "social_anxiety" := [SocialAnxietyVr],
      "panic" := [PanicLongTerm],
      "crisis" := [CrisisIntervention]
    ])
  }

  /** `get_articles`: the list under exactly this key, else the empty list. */
  function GetArticles(condition: string): (articles: seq<Article>)
    ensures condition !in TableKeys ==> articles == []
    ensures condition == "anxiety" || condition == "depression" ==> |articles| == 2
    ensures condition == "social_anxiety" || condition == "panic" || condition == "crisis" ==> |articles| == 1
    ensures forall a :: a in articles ==> ArticleKeys(a) == {"title", "author", "year", "abstract", "url"}
  {
    ArticleTable().Get(condition, [])
  }
}
