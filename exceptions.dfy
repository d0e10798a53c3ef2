/** The error raised when no condition scores above the matching threshold. */
module Exceptions {
  import opened Wrappers

  const NoMatchMessage: string :=
    "Unable to identify matching conditions. Here are some suggestions to help us better understand your symptoms:"

  /** The suggestions used when the caller passes none. */
  const DefaultSuggestions: seq<string> := [
    "Try describing your symptoms in more detail",
    "Include how long you've been experiencing these symptoms",
    "Mention how these symptoms affect your daily life",
    "Include any triggers or patterns you've noticed",
    "Describe any changes in sleep, appetite, or energy levels"
  ]

  datatype NoMatchingConditionsError = NoMatchingConditionsError(
    symptoms: string,
    suggestions: seq<string>,
    message: string)

  /**
   * The exception's constructor. `suggestions` is `None` when the caller
   * omits it; Python's `suggestions or [...]` replaces both `None` and the
   * empty list with the defaults.
   */
  function NewNoMatchingConditionsError(symptoms: string, suggestions: Option<seq<string>>): (e: NoMatchingConditionsError)
    ensures e.symptoms == symptoms
    ensures suggestions.Some? && suggestions.value != [] ==> e.suggestions == suggestions.value
    ensures suggestions.None? || suggestions.value == [] ==> e.suggestions == DefaultSuggestions
    ensures e.suggestions != []
    ensures e.message == NoMatchMessage
  {
    var given := suggestions.GetOr([]);
    NoMatchingConditionsError(symptoms, if given != [] then given else DefaultSuggestions, NoMatchMessage)
  }
}
