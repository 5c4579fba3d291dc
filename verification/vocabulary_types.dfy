/** The vocabulary records of the study application: catalog words and a
    learner's per-word progress. Timestamps are milliseconds since the epoch. */
module VocabularyTypes {
  import opened Seqs

  /** 1: up to about 600 points, 2: about 750, 3: 800 and above. */
  type Level = l: int | 1 <= l <= 3 witness 1

  datatype Word = Word(
    id: string,
    word: string,
    pronunciation: string,
    audioUrl: string,
    meaning: string,
    synonyms: seq<string>,
    antonyms: seq<string>,
    collocations: seq<string>,
    exampleSentence: string,
    exampleTranslation: string,
    level: Level,
    category: string)

  datatype Progress = Progress(
    wordId: string,
    correctCount: nat,
    incorrectCount: nat,
    lastReviewed: int,
    nextReview: int,
    masteryLevel: int,
    isMastered: bool)
  {
    function Answers(): nat { correctCount + incorrectCount }
  }

  predicate IsMastered(p: Progress) { p.isMastered }

  /** Filtering on `isMastered` counts the mastered records. */
  lemma MasteredFilterCount(s: seq<Progress>)
    ensures |Filter(s, IsMastered)| == |set i: nat | i < |s| && s[i].isMastered|
  {
    FilterCount(s, IsMastered);
    assert Positions(s, IsMastered) == set i: nat | i < |s| && s[i].isMastered;
  }
}
