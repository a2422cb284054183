/** The four learning types. Both the quiz page (`optionMapping`) and the
    server (`badgeUrls`, `learningDetails`) spell them the same way. */
module LearningTypes {
  import opened JsObject

  const Visual: string := "Visual"
  const Auditory: string := "Auditory"
  const ReadingWriting: string := "Reading/Writing"
  const Kinesthetic: string := "Kinesthetic"

  function KnownTypes(): (types: set<string>)
    ensures |types| == 4
  {
    {Visual, Auditory, ReadingWriting, Kinesthetic}
  }

  /** The type names start with a letter, so they are never array indices
      and a tally of them lists them in order of first occurrence. */
  lemma KnownTypesAreNotIndices()
    ensures forall t :: t in KnownTypes() ==> !IsArrayIndex(t)
  {
    NotDigitNotIndex(Visual);
    NotDigitNotIndex(Auditory);
    NotDigitNotIndex(ReadingWriting);
    NotDigitNotIndex(Kinesthetic);
  }
}
