/** The spaced-repetition scheduler: mastery score, review interval, study
    selection, answer recording, weak-word extraction and summary counts.

    The clock is a parameter `now` (milliseconds). Scores and priorities are
    computed exactly: the score's rounding is integer division, and priorities
    are scaled by 5 so that `80 + (100 - score) / 5` stays an integer. */
module SpacedRepetition {
  import opened Wrappers
  import opened Seqs
  import opened Sorting
  import opened VocabularyTypes

  const MsPerDay: int := 24 * 60 * 60 * 1000

  // ---------------------------------------------------------------------------
  // Mastery score

  /** The score before rounding: accuracy worth up to 70 points plus 3 points
      per correct answer, up to 30. */
  ghost function RawScore(p: Progress): real
    requires p.Answers() > 0
  {
    (p.correctCount as real / p.Answers() as real) * 70.0 + Min(30, p.correctCount * 3) as real
  }

  /** `Math.min(100, Math.round(accuracy + countBonus))`, with `Math.round`
      rounding halves up: `floor(x + 1/2)` written over the common denominator. */
  function MasteryScore(p: Progress): (s: int)
    ensures 0 <= s <= 100
    ensures p.Answers() == 0 ==> s == 0
    ensures p.Answers() > 0 ==> (s == 100 <==> RawScore(p) + 0.5 >= 100.0)
    ensures p.Answers() > 0 && s < 100 ==> s as real <= RawScore(p) + 0.5 < s as real + 1.0
  {
    var c, t := p.correctCount, p.Answers();
    if t == 0 then 0
    else
      var n, d := 140 * c + 2 * t * Min(30, 3 * c) + t, 2 * t;
      RoundingIsFloor(p, n, d);
      Min(100, n / d)
  }

  lemma RoundingIsFloor(p: Progress, n: int, d: int)
    requires p.Answers() > 0
    requires n == 140 * p.correctCount + 2 * p.Answers() * Min(30, 3 * p.correctCount) + p.Answers()
    requires d == 2 * p.Answers()
    ensures n >= 0 && d > 0
    ensures (n / d) as real <= RawScore(p) + 0.5 < (n / d) as real + 1.0
  {
    RawScoreScaled(p, n, d);
    var q := n / d;
    assert q * d <= n < (q + 1) * d;
    DivBounds(q, n, d, RawScore(p) + 0.5);
  }

  /** Clearing the denominator: `(RawScore + 1/2) * 2t` is the integer numerator. */
  lemma RawScoreScaled(p: Progress, n: int, d: int)
    requires p.Answers() > 0
    requires n == 140 * p.correctCount + 2 * p.Answers() * Min(30, 3 * p.correctCount) + p.Answers()
    requires d == 2 * p.Answers()
    ensures (RawScore(p) + 0.5) * (d as real) == n as real
  {
    var m := Min(30, p.correctCount * 3) as real;
    var c, t := p.correctCount as real, p.Answers() as real;
    var a := c / t;
    assert a * t == c;
    var x := RawScore(p) + 0.5;
    assert x == a * 70.0 + m + 0.5;
    assert x * (d as real) == (a * 70.0 + m + 0.5) * (2.0 * t);
    assert (a * 70.0 + m + 0.5) * (2.0 * t) == 140.0 * (a * t) + 2.0 * t * m + t;
  }

  lemma DivBounds(q: int, n: int, d: int, x: real)
    requires d > 0
    requires q * d <= n < (q + 1) * d
    requires x * (d as real) == n as real
    ensures q as real <= x < q as real + 1.0
  {
    var D := d as real;
    assert (q as real) * D == (q * d) as real;
    assert ((q + 1) as real) * D == ((q + 1) * d) as real;
    RealMulCancel(q as real, x, D);
    RealMulCancelStrict(x, q as real + 1.0, D);
  }

  lemma RealMulCancel(a: real, b: real, k: real)
    requires k > 0.0 && a * k <= b * k
    ensures a <= b
  {
  }

  lemma RealMulCancelStrict(a: real, b: real, k: real)
    requires k > 0.0 && a * k < b * k
    ensures a < b
  {
  }

  lemma RealFractionLe(a: real, b: real, c: real, d: real)
    requires b > 0.0 && d > 0.0
    requires a * d <= c * b
    ensures a / b <= c / d
  {
    var x, y := a / b, c / d;
    assert x * b == a && y * d == c;
    assert x * (b * d) == a * d;
    assert y * (b * d) == c * b;
    RealMulCancel(x, y, b * d);
  }

  /** One more correct answer never lowers the score. */
  lemma ScoreStepMonotone(p: Progress)
    ensures MasteryScore(p.(correctCount := p.correctCount + 1)) >= MasteryScore(p)
  {
    var q := p.(correctCount := p.correctCount + 1);
    if p.Answers() > 0 {
      var c, t := p.correctCount as real, p.Answers() as real;
      assert q.Answers() as real == t + 1.0;
      assert c * (t + 1.0) <= (c + 1.0) * t;
      RealFractionLe(c, t, c + 1.0, t + 1.0);
      assert RawScore(p) <= RawScore(q);
    }
  }

  /** With the incorrect count held fixed, more correct answers never lower the
      score. */
  lemma {:induction false} ScoreMonotone(p: Progress, q: Progress)
    requires q.incorrectCount == p.incorrectCount
    requires q.correctCount >= p.correctCount
    ensures MasteryScore(q) >= MasteryScore(p)
    decreases q.correctCount - p.correctCount
  {
    if q.correctCount > p.correctCount {
      var r := q.(correctCount := q.correctCount - 1);
      ScoreMonotone(p, r);
      ScoreStepMonotone(r);
      assert r.(correctCount := r.correctCount + 1) == q.(correctCount := q.correctCount);
    } else {
      assert MasteryScore(q) == MasteryScore(p);
    }
  }

  /** Ten correct answers and none wrong give full mastery; a first correct
      answer gives 73. */
  lemma ScoreExamples(p: Progress)
    ensures p.correctCount == 10 && p.incorrectCount == 0 ==> MasteryScore(p) == 100
    ensures p.correctCount == 1 && p.incorrectCount == 0 ==> MasteryScore(p) == 73
  {
  }

  // ---------------------------------------------------------------------------
  // Review interval

  /** The review interval in days for a mastery score: a step function whose
      bands include their lower bound. */
  function IntervalDays(score: int): (days: int)
    ensures days in {1, 2, 4, 7, 14}
    ensures score < 20 <==> days == 1
    ensures score >= 80 <==> days == 14
  {
    if score < 20 then 1
    else if score < 40 then 2
    else if score < 60 then 4
    else if score < 80 then 7
    else 14
  }

  /** A higher score never gives a shorter interval. */
  lemma IntervalMonotone(s1: int, s2: int)
    requires s1 <= s2
    ensures IntervalDays(s1) <= IntervalDays(s2)
  {
  }

  /** Each band boundary takes the longer interval. */
  lemma IntervalBoundaries()
    ensures IntervalDays(19) == 1 && IntervalDays(20) == 2
    ensures IntervalDays(39) == 2 && IntervalDays(40) == 4
    ensures IntervalDays(59) == 4 && IntervalDays(60) == 7
    ensures IntervalDays(79) == 7 && IntervalDays(80) == 14
    ensures IntervalDays(0) == 1 && IntervalDays(100) == 14
  {
  }

  /** `calculateNextReviewDate`: `now` plus the interval for the record's score. */
  function NextReviewDate(p: Progress, now: int): (next: int)
    ensures now + MsPerDay <= next <= now + 14 * MsPerDay
    ensures (next - now) % MsPerDay == 0
    ensures MasteryScore(p) >= 80 <==> next == now + 14 * MsPerDay
    ensures MasteryScore(p) < 20 <==> next == now + MsPerDay
  {
    now + IntervalDays(MasteryScore(p)) * MsPerDay
  }

  /** More correct answers (same incorrect count) never bring the next review
      earlier. */
  lemma NextReviewMonotone(p: Progress, q: Progress, now: int)
    requires q.incorrectCount == p.incorrectCount
    requires q.correctCount >= p.correctCount
    ensures NextReviewDate(q, now) >= NextReviewDate(p, now)
  {
    ScoreMonotone(p, q);
    IntervalMonotone(MasteryScore(p), MasteryScore(q));
  }

  // ---------------------------------------------------------------------------
  // Study selection

  /** A word's priority as the source computes it, in exact arithmetic. */
  ghost function SourcePriority(w: Word, progressMap: map<string, Progress>, prioritizeWeak: bool, now: int): real
  {
    if w.id !in progressMap then 50.0
    else
      var p := progressMap[w.id];
      var score := MasteryScore(p) as real;
      if prioritizeWeak then
        (100.0 - score) + (if p.incorrectCount > 0 then p.incorrectCount as real * 10.0 else 0.0)
      else if p.nextReview <= now then 80.0 + (100.0 - score) / 5.0
      else 100.0 - score
  }

  /** Five times the priority of `w`: unseen words 50, overdue words
      `80 + (100 - score) / 5`, other words `100 - score`; in weak-first mode
      `100 - score + 10 * incorrectCount` whatever the due date. */
  function Priority(w: Word, progressMap: map<string, Progress>, prioritizeWeak: bool, now: int): (r: int)
    ensures r as real == 5.0 * SourcePriority(w, progressMap, prioritizeWeak, now)
    ensures r >= 0
    ensures w.id !in progressMap ==> r == 250
    ensures w.id in progressMap && !prioritizeWeak && progressMap[w.id].nextReview <= now ==> 400 <= r <= 500
    ensures w.id in progressMap && !prioritizeWeak ==> r <= 500
  {
    if w.id !in progressMap then 250
    else
      var p := progressMap[w.id];
      var score := MasteryScore(p);
      if prioritizeWeak then
        5 * (100 - score) + (if p.incorrectCount > 0 then 50 * p.incorrectCount else 0)
      else if p.nextReview <= now then 400 + (100 - score)
      else 5 * (100 - score)
  }

  /** In weak-first mode the priority depends on the counts only, not on the
      due date or the clock. */
  lemma WeakPriorityIgnoresDueDate(w: Word, m1: map<string, Progress>, m2: map<string, Progress>, now1: int, now2: int)
    requires w.id in m1 && w.id in m2
    requires m1[w.id].correctCount == m2[w.id].correctCount
    requires m1[w.id].incorrectCount == m2[w.id].incorrectCount
    ensures Priority(w, m1, true, now1) == Priority(w, m2, true, now2)
  {
    var p1, p2 := m1[w.id], m2[w.id];
    assert p1.Answers() == p2.Answers();
    assert MasteryScore(p1) == MasteryScore(p2);
  }

  /** In normal mode the due date matters: a word answered correctly once
      (score 73) is ranked 80 + 27/5 = 85.4 when overdue and 100 - 73 = 27
      when not, that is 427 and 135 on the scale of five. */
  lemma NormalPriorityUsesDueDate(w: Word, p: Progress, now: int)
    requires p.correctCount == 1 && p.incorrectCount == 0
    requires p.nextReview <= now < p.nextReview + MsPerDay
    ensures Priority(w, map[w.id := p], false, now) == 5 * 80 + 27
    ensures Priority(w, map[w.id := p], false, now - MsPerDay) == 5 * 27
  {
    ScoreExamples(p);
  }

  /** An entry of the `scored` array: a catalog word, its position in the
      catalog and its priority. */
  datatype Scored = Scored(pos: nat, word: Word, priority: int)

  function ScoreAll(allWords: seq<Word>, progressMap: map<string, Progress>, prioritizeWeak: bool, now: int): seq<Scored>
  {
    seq(|allWords|, i requires 0 <= i < |allWords| =>
      Scored(i, allWords[i], Priority(allWords[i], progressMap, prioritizeWeak, now)))
  }

  /** The comparator `b.priority - a.priority`: higher priority first. */
  predicate HigherPriorityFirst(a: Scored, b: Scored)
  {
    a.priority >= b.priority
  }

  predicate EarlierInCatalog(a: Scored, b: Scored)
  {
    a.pos < b.pos
  }

  function Ranked(allWords: seq<Word>, progressMap: map<string, Progress>, prioritizeWeak: bool, now: int): seq<Scored>
  {
    SortBy(ScoreAll(allWords, progressMap, prioritizeWeak, now), HigherPriorityFirst)
  }

  /** The catalog positions of the selected words, in selection order. */
  function SelectedPositions(allWords: seq<Word>, progressMap: map<string, Progress>, count: int, prioritizeWeak: bool, now: int): seq<nat>
  {
    var top := Prefix(Ranked(allWords, progressMap, prioritizeWeak, now), count);
    seq(|top|, k requires 0 <= k < |top| => top[k].pos)
  }

  /** `selectWordsForStudy`: rank the catalog by priority (stable) and keep the
      first `count` words. */
  function SelectWordsForStudy(now: int, allWords: seq<Word>, progressMap: map<string, Progress>, count: int := 10, prioritizeWeak: bool := false): (r: seq<Word>)
    ensures |r| == SliceEnd(|allWords|, count)
    ensures count >= 0 ==> |r| == Min(count, |allWords|)
    ensures allWords == [] ==> r == []
  {
    var top := Prefix(Ranked(allWords, progressMap, prioritizeWeak, now), count);
    seq(|top|, k requires 0 <= k < |top| => top[k].word)
  }

  lemma PriorityOrderIsTotal()
    ensures TotalPreorder(HigherPriorityFirst)
  {
  }

  /** Facts about the ranked `scored` array: every entry is the catalog entry at
      its own position, and entries are by descending priority, ties by
      catalog position. */
  lemma RankedFacts(allWords: seq<Word>, progressMap: map<string, Progress>, prioritizeWeak: bool, now: int)
    ensures var scored := ScoreAll(allWords, progressMap, prioritizeWeak, now);
      var ranked := Ranked(allWords, progressMap, prioritizeWeak, now);
      && |ranked| == |allWords|
      && (forall e | e in ranked :: e.pos < |allWords| && e == scored[e.pos])
      && SortedTieBroken(ranked, HigherPriorityFirst, EarlierInCatalog)
  {
    var scored := ScoreAll(allWords, progressMap, prioritizeWeak, now);
    var ranked := Ranked(allWords, progressMap, prioritizeWeak, now);
    PriorityOrderIsTotal();
    SortByTieBreak(scored, HigherPriorityFirst, EarlierInCatalog);
    forall e | e in ranked ensures e.pos < |allWords| && e == scored[e.pos] {
      assert e in multiset(scored);
      var i :| 0 <= i < |scored| && scored[i] == e;
    }
  }

  function PriorityAt(allWords: seq<Word>, progressMap: map<string, Progress>, prioritizeWeak: bool, now: int, i: nat): int
    requires i < |allWords|
  {
    Priority(allWords[i], progressMap, prioritizeWeak, now)
  }

  /** The selection is drawn from the catalog without repeating a catalog
      position, and it comes by non-increasing priority, equal priorities in
      catalog order. */
  lemma SelectionDrawnAndOrdered(allWords: seq<Word>, progressMap: map<string, Progress>, count: int, prioritizeWeak: bool, now: int)
    ensures var r := SelectWordsForStudy(now, allWords, progressMap, count, prioritizeWeak);
      var ps := SelectedPositions(allWords, progressMap, count, prioritizeWeak, now);
      && |ps| == |r|
      && (forall k | 0 <= k < |ps| :: ps[k] < |allWords| && r[k] == allWords[ps[k]])
      && (forall j, k | 0 <= j < k < |ps| :: ps[j] != ps[k])
      && (forall j, k | 0 <= j < k < |ps| ::
            && PriorityAt(allWords, progressMap, prioritizeWeak, now, ps[j]) >= PriorityAt(allWords, progressMap, prioritizeWeak, now, ps[k])
            && (PriorityAt(allWords, progressMap, prioritizeWeak, now, ps[j]) == PriorityAt(allWords, progressMap, prioritizeWeak, now, ps[k]) ==> ps[j] < ps[k]))
  {
    var scored := ScoreAll(allWords, progressMap, prioritizeWeak, now);
    var ranked := Ranked(allWords, progressMap, prioritizeWeak, now);
    RankedFacts(allWords, progressMap, prioritizeWeak, now);
    var r := SelectWordsForStudy(now, allWords, progressMap, count, prioritizeWeak);
    var ps := SelectedPositions(allWords, progressMap, count, prioritizeWeak, now);
    forall k | 0 <= k < |ps| ensures ps[k] < |allWords| && r[k] == allWords[ps[k]] {
      assert ranked[k] in ranked;
    }
    forall j, k | 0 <= j < k < |ps|
      ensures ps[j] != ps[k]
      ensures PriorityAt(allWords, progressMap, prioritizeWeak, now, ps[j]) >= PriorityAt(allWords, progressMap, prioritizeWeak, now, ps[k])
      ensures PriorityAt(allWords, progressMap, prioritizeWeak, now, ps[j]) == PriorityAt(allWords, progressMap, prioritizeWeak, now, ps[k]) ==> ps[j] < ps[k]
    {
      assert ranked[j] in ranked && ranked[k] in ranked;
      assert HigherPriorityFirst(ranked[j], ranked[k]);
    }
  }

  /** The selection is a best `count`: a catalog word left out never has a
      higher priority than a selected one, and on equal priority it comes later
      in the catalog. */
  lemma SelectionIsTop(allWords: seq<Word>, progressMap: map<string, Progress>, count: int, prioritizeWeak: bool, now: int)
    ensures var ps := SelectedPositions(allWords, progressMap, count, prioritizeWeak, now);
      forall p, k | 0 <= p < |allWords| && p !in ps && 0 <= k < |ps| ::
        && ps[k] < |allWords|
        && PriorityAt(allWords, progressMap, prioritizeWeak, now, p) <= PriorityAt(allWords, progressMap, prioritizeWeak, now, ps[k])
        && (PriorityAt(allWords, progressMap, prioritizeWeak, now, p) == PriorityAt(allWords, progressMap, prioritizeWeak, now, ps[k]) ==> ps[k] < p)
  {
    var scored := ScoreAll(allWords, progressMap, prioritizeWeak, now);
    var ranked := Ranked(allWords, progressMap, prioritizeWeak, now);
    RankedFacts(allWords, progressMap, prioritizeWeak, now);
    var ps := SelectedPositions(allWords, progressMap, count, prioritizeWeak, now);
    SelectedPositionsAreRanked(allWords, progressMap, count, prioritizeWeak, now);
    LeftOutRankLower(scored, ranked, ps);
    forall p, k | 0 <= p < |allWords| && p !in ps && 0 <= k < |ps|
      ensures ps[k] < |allWords|
      ensures PriorityAt(allWords, progressMap, prioritizeWeak, now, p) <= PriorityAt(allWords, progressMap, prioritizeWeak, now, ps[k])
      ensures PriorityAt(allWords, progressMap, prioritizeWeak, now, p) == PriorityAt(allWords, progressMap, prioritizeWeak, now, ps[k]) ==> ps[k] < p
    {
      assert ranked[k] in ranked;
      assert scored[ps[k]] == ranked[k];
      assert PriorityAt(allWords, progressMap, prioritizeWeak, now, p) == scored[p].priority;
      assert PriorityAt(allWords, progressMap, prioritizeWeak, now, ps[k]) == ranked[k].priority;
    }
  }

  /** The selected positions are those of the first ranked entries. */
  lemma SelectedPositionsAreRanked(allWords: seq<Word>, progressMap: map<string, Progress>, count: int, prioritizeWeak: bool, now: int)
    ensures |SelectedPositions(allWords, progressMap, count, prioritizeWeak, now)| <= |Ranked(allWords, progressMap, prioritizeWeak, now)|
    ensures forall k | 0 <= k < |SelectedPositions(allWords, progressMap, count, prioritizeWeak, now)| ::
      SelectedPositions(allWords, progressMap, count, prioritizeWeak, now)[k] == Ranked(allWords, progressMap, prioritizeWeak, now)[k].pos
  {
    var ranked := Ranked(allWords, progressMap, prioritizeWeak, now);
    var top := Prefix(ranked, count);
    assert top == ranked[..SliceEnd(|ranked|, count)];
  }

  /** Over any ranking of the `scored` array: an entry whose position is not
      among the first `|ps|` ranked ones ranks no higher than each of them,
      and on equal priority comes later in the catalog. */
  lemma LeftOutRankLower(scored: seq<Scored>, ranked: seq<Scored>, ps: seq<nat>)
    requires forall i | 0 <= i < |scored| :: scored[i].pos == i
    requires multiset(ranked) == multiset(scored)
    requires SortedTieBroken(ranked, HigherPriorityFirst, EarlierInCatalog)
    requires |ps| <= |ranked|
    requires forall k | 0 <= k < |ps| :: ps[k] == ranked[k].pos
    ensures forall p, k | 0 <= p < |scored| && p !in ps && 0 <= k < |ps| ::
      && scored[p].priority <= ranked[k].priority
      && (scored[p].priority == ranked[k].priority ==> ps[k] < p)
  {
    forall p, k | 0 <= p < |scored| && p !in ps && 0 <= k < |ps|
      ensures scored[p].priority <= ranked[k].priority
      ensures scored[p].priority == ranked[k].priority ==> ps[k] < p
    {
      assert scored[p] in multiset(ranked);
      var m :| 0 <= m < |ranked| && ranked[m] == scored[p];
      assert m >= |ps|;
      assert HigherPriorityFirst(ranked[k], ranked[m]);
    }
  }

  /** When the catalog's ids are distinct, so are the selected words' ids. */
  lemma SelectionHasDistinctIds(allWords: seq<Word>, progressMap: map<string, Progress>, count: int, prioritizeWeak: bool, now: int)
    requires forall i, j | 0 <= i < j < |allWords| :: allWords[i].id != allWords[j].id
    ensures var r := SelectWordsForStudy(now, allWords, progressMap, count, prioritizeWeak);
      forall j, k | 0 <= j < k < |r| :: r[j].id != r[k].id
  {
    SelectionDrawnAndOrdered(allWords, progressMap, count, prioritizeWeak, now);
    var r := SelectWordsForStudy(now, allWords, progressMap, count, prioritizeWeak);
    var ps := SelectedPositions(allWords, progressMap, count, prioritizeWeak, now);
    forall j, k | 0 <= j < k < |r| ensures r[j].id != r[k].id {
      if ps[j] < ps[k] {
        assert allWords[ps[j]].id != allWords[ps[k]].id;
      } else {
        assert allWords[ps[k]].id != allWords[ps[j]].id;
      }
    }
  }

  // ---------------------------------------------------------------------------
  // Recording an answer

  /** The cached fields of a record agree with its counts: level
      `floor(score / 20)`, mastered exactly from score 80. */
  predicate Consistent(p: Progress)
  {
    && p.masteryLevel == MasteryScore(p) / 20
    && (p.isMastered <==> MasteryScore(p) >= 80)
  }

  /** A consistent record's level lies in [0, 5], is 5 only at score 100, and
      the record is mastered exactly from level 4 (the field's documented
      meaning). */
  lemma ConsistentLevels(p: Progress)
    requires Consistent(p)
    ensures 0 <= p.masteryLevel <= 5
    ensures p.masteryLevel == 5 <==> MasteryScore(p) == 100
    ensures p.isMastered <==> p.masteryLevel >= 4
  {
  }

  /** `updateProgress`: count one answer and recompute the cached fields and
      the next review; a missing record starts from zero counts. An existing
      record keeps its own `wordId`. */
  method UpdateProgress(progress: Option<Progress>, wordId: string, isCorrect: bool, now: int) returns (updated: Progress)
    ensures updated.wordId == if progress.Some? then progress.value.wordId else wordId
    ensures var before := if progress.Some? then progress.value.correctCount else 0;
      updated.correctCount == if isCorrect then before + 1 else before
    ensures var before := if progress.Some? then progress.value.incorrectCount else 0;
      updated.incorrectCount == if isCorrect then before else before + 1
    ensures updated.lastReviewed == now
    ensures Consistent(updated)
    ensures 0 <= updated.masteryLevel <= 5
    ensures updated.isMastered <==> updated.masteryLevel >= 4
    ensures updated.nextReview == NextReviewDate(updated, now)
    ensures updated.lastReviewed < updated.nextReview
  {
    var current := if progress.Some? then progress.value else Progress(wordId, 0, 0, now, now, 0, false);
    updated := current.(
      correctCount := if isCorrect then current.correctCount + 1 else current.correctCount,
      incorrectCount := if isCorrect then current.incorrectCount else current.incorrectCount + 1,
      lastReviewed := now,
      masteryLevel := 0,
      isMastered := false);
    var masteryScore := MasteryScore(updated);
    updated := updated.(masteryLevel := masteryScore / 20);
    updated := updated.(isMastered := masteryScore >= 80);
    updated := updated.(nextReview := NextReviewDate(updated, now));
  }

  // ---------------------------------------------------------------------------
  // Weak words and summary counts

  /** A correct-answer ratio; zero for a record with no answers. */
  function Accuracy(p: Progress): real
  {
    if p.Answers() == 0 then 0.0 else p.correctCount as real / p.Answers() as real
  }

  /** The weak-word comparator: lower accuracy first, then more wrong answers. */
  predicate WeakerFirst(a: Progress, b: Progress)
  {
    Accuracy(a) < Accuracy(b) || (Accuracy(a) == Accuracy(b) && a.incorrectCount >= b.incorrectCount)
  }

  predicate IsWeakCandidate(p: Progress)
  {
    !p.isMastered && p.Answers() > 0
  }

  /** `getWeakWords`: unmastered answered records, weakest first, at most
      `limit` of them. */
  function GetWeakWords(progressList: seq<Progress>, limit: int := 50): (r: seq<Progress>)
    ensures multiset(r) <= multiset(progressList)
    ensures forall p | p in r :: !p.isMastered && p.Answers() > 0
    ensures limit >= 0 ==> |r| == Min(limit, |Filter(progressList, IsWeakCandidate)|)
  {
    var weak := Filter(progressList, IsWeakCandidate);
    var sorted := SortBy(weak, WeakerFirst);
    var r := Prefix(sorted, limit);
    PrefixMultiset(sorted, |r|);
    assert multiset(r) <= multiset(weak) <= multiset(progressList);
    assert forall p | p in r :: p in multiset(weak);
    r
  }

  lemma WeakerFirstIsTotal()
    ensures TotalPreorder(WeakerFirst)
  {
  }

  /** The weak list is ordered by ascending accuracy, ties by descending wrong
      answers; every candidate left out is no weaker than any kept record; and
      when at most `limit` records qualify, all of them are kept. */
  lemma GetWeakWordsRanked(progressList: seq<Progress>, limit: int)
    ensures var r := GetWeakWords(progressList, limit);
      && SortedBy(r, WeakerFirst)
      && (forall x, y | x in progressList && IsWeakCandidate(x) && x !in r && y in r :: WeakerFirst(y, x))
      && (limit >= |Filter(progressList, IsWeakCandidate)| ==> multiset(r) == multiset(Filter(progressList, IsWeakCandidate)))
  {
    var weak := Filter(progressList, IsWeakCandidate);
    var sorted := SortBy(weak, WeakerFirst);
    var r := GetWeakWords(progressList, limit);
    assert r == sorted[..|r|];
    assert SortedBy(r, WeakerFirst) && (forall x, y | x in weak && x !in r && y in r :: WeakerFirst(y, x)) by {
      WeakerFirstIsTotal();
      TopOfSorted(weak, WeakerFirst, |r|);
    }
    if limit >= |weak| {
      assert r == sorted;
    }
  }

  /** The summary returned by `calculateVocabStats`. */
  datatype VocabSummary = VocabSummary(total: nat, studied: nat, mastered: nat, weak: nat, avgMastery: int)

  predicate IsStudied(p: Progress) { p.Answers() > 0 }

  predicate IsLowScoring(p: Progress) { MasteryScore(p) < 40 && p.Answers() > 0 }

  /** The sum of the records' mastery scores. */
  function SumScores(progressList: seq<Progress>): (sum: nat)
    ensures sum <= 100 * |progressList|
  {
    if progressList == [] then 0
    else MasteryScore(progressList[0]) + SumScores(progressList[1..])
  }

  /** `calculateVocabStats`: counts of records, answered records, mastered
      records and low-scoring answered records, and the mean score rounded
      half up (zero for an empty list). */
  function CalculateVocabStats(progressList: seq<Progress>): (r: VocabSummary)
    ensures r.total == |progressList|
    ensures r.studied == |set i: nat | i < |progressList| && progressList[i].Answers() > 0|
    ensures r.mastered == |set i: nat | i < |progressList| && progressList[i].isMastered|
    ensures r.weak == |set i: nat | i < |progressList| && MasteryScore(progressList[i]) < 40 && progressList[i].Answers() > 0|
    ensures r.studied <= r.total && r.mastered <= r.total && r.weak <= r.studied
    ensures 0 <= r.avgMastery <= 100
    ensures progressList == [] ==> r.avgMastery == 0
    ensures progressList != [] ==>
      r.avgMastery as real - 0.5 <= SumScores(progressList) as real / |progressList| as real < r.avgMastery as real + 0.5
  {
    var total := |progressList|;
    var studied := |Filter(progressList, IsStudied)|;
    var mastered := |Filter(progressList, IsMastered)|;
    var weak := |Filter(progressList, IsLowScoring)|;
    FilterWeaker(progressList, IsLowScoring, IsStudied);
    SummaryCounts(progressList);
    var sum := SumScores(progressList);
    var d := if total == 0 then 1 else total;
    RoundedMeanBound(sum, d);
    RoundHalfUp(sum, d);
    VocabSummary(total, studied, mastered, weak, (2 * sum + d) / (2 * d))
  }

  /** The three filters count the answered, mastered and low-scoring
      answered records. */
  lemma SummaryCounts(progressList: seq<Progress>)
    ensures |Filter(progressList, IsStudied)| == |set i: nat | i < |progressList| && progressList[i].Answers() > 0|
    ensures |Filter(progressList, IsMastered)| == |set i: nat | i < |progressList| && progressList[i].isMastered|
    ensures |Filter(progressList, IsLowScoring)|
      == |set i: nat | i < |progressList| && MasteryScore(progressList[i]) < 40 && progressList[i].Answers() > 0|
  {
    StudiedCount(progressList);
    MasteredFilterCount(progressList);
    LowScoringCount(progressList);
  }

  lemma StudiedCount(s: seq<Progress>)
    ensures |Filter(s, IsStudied)| == |set i: nat | i < |s| && s[i].Answers() > 0|
  {
    FilterCount(s, IsStudied);
    assert Positions(s, IsStudied) == set i: nat | i < |s| && s[i].Answers() > 0;
  }

  lemma LowScoringCount(s: seq<Progress>)
    ensures |Filter(s, IsLowScoring)| == |set i: nat | i < |s| && MasteryScore(s[i]) < 40 && s[i].Answers() > 0|
  {
    FilterCount(s, IsLowScoring);
    assert Positions(s, IsLowScoring) == set i: nat | i < |s| && MasteryScore(s[i]) < 40 && s[i].Answers() > 0;
  }

  /** `Math.round(sum / d)` for a mean of scores at most 100 is at most 100. */
  lemma RoundedMeanBound(sum: nat, d: nat)
    requires d > 0 && sum <= 100 * d
    ensures 0 <= (2 * sum + d) / (2 * d) <= 100
  {
    assert 2 * sum + d < 101 * (2 * d);
  }

  /** The integer `(2 sum + d) div 2d` is `Math.round(sum / d)`: within half a
      point of the real quotient, halves rounding up. */
  lemma RoundHalfUp(sum: nat, d: nat)
    requires d > 0
    ensures var q := (2 * sum + d) / (2 * d);
      q as real - 0.5 <= sum as real / d as real < q as real + 0.5
  {
    var q, n := (2 * sum + d) / (2 * d), 2 * sum + d;
    var mean := sum as real / d as real;
    assert mean * (d as real) == sum as real;
    var x := mean + 0.5;
    assert x * ((2 * d) as real) == 2.0 * (mean * (d as real)) + d as real;
    assert q * (2 * d) <= n < (q + 1) * (2 * d);
    DivBounds(q, n, 2 * d, x);
  }
}
