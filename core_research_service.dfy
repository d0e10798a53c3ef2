/**
 * The research service of the `core` package. Apart from loading, its
 * operations are those of the application's research service, line for line;
 * only a missing knowledge-base document is handled differently.
 */
module CoreResearchService {
  import opened Wrappers
  import opened Models

  const MissingDataMessage := "DSM-5 data file not found. Ensure data/dsm5/disorders.json exists."

  datatype Load = Loaded(kb: KnowledgeBase) | FileNotFound(message: string)

  /** `_load_dsm5_data`: a missing document (`None`) raises `FileNotFoundError` instead of giving `{}`. */
  function LoadKnowledgeBase(file: Option<KnowledgeBase>): (r: Load)
    ensures r.FileNotFound? <==> file.None?
    ensures r.Loaded? ==> r.kb == file.value
    ensures r.FileNotFound? ==> r.message == MissingDataMessage
  {
    match file
    case Some(content) => Loaded(content)
    case None => FileNotFound(MissingDataMessage)
  }
}
