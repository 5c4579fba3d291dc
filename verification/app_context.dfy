/** The app-wide statistics record and its updates: the state changes
    `updateQuizStats`, `updateVocabStats` and `addDiaryEntry` hand to
    `setStats`, the views `getTodayStats`, `getRecentHistory` and
    `getWeakWords`, and the provider object that holds the record. */
module AppContext {
  import opened Wrappers
  import opened Seqs
  import opened Sorting
  import opened VocabularyTypes
  import Wordbank

  /** A TOEIC part number. */
  type Part = p: int | 1 <= p <= 7 witness 1

  datatype PartStat = PartStat(answered: int, correct: int)

  datatype VocabStats = VocabStats(totalWords: int, masteredWords: nat, weakWords: seq<Progress>)

  /** One day of the study history. The `YYYY-MM-DD` date string is written
      as the number YYYYMMDD, which orders days the way comparing the strings
      does. */
  datatype DailyRecord = DailyRecord(date: int, answered: int, correct: int, studyTime: int)

  datatype Correction = Correction(
    id: string,
    originalText: string,
    correctedText: string,
    reason: string,
    category: string,
    startIndex: int,
    endIndex: int)

  datatype DiaryEntry = DiaryEntry(
    id: string,
    date: int,
    originalText: string,
    correctedText: Option<string>,
    corrections: Option<seq<Correction>>,
    suggestions: Option<seq<string>>,
    isCorrected: bool)

  datatype AppStats = AppStats(
    totalAnswered: int,
    totalCorrect: int,
    partStats: map<Part, PartStat>,
    vocabStats: VocabStats,
    diaryEntries: seq<DiaryEntry>,
    studyTime: int,
    dailyHistory: seq<DailyRecord>)

  /** The state before anything has been answered. */
  const InitialStats: AppStats := AppStats(
    0, 0,
    map p: Part | 1 <= p <= 7 :: PartStat(0, 0),
    VocabStats(1000, 0, []),
    [], 0, [])

  // ---------------------------------------------------------------------------
  // The invariant the updates keep

  /** Newer days first: the order `b.date.localeCompare(a.date)` sorts by. */
  predicate NewerFirst(a: DailyRecord, b: DailyRecord)
  {
    a.date >= b.date
  }

  predicate OlderFirst(a: DailyRecord, b: DailyRecord)
  {
    a.date <= b.date
  }

  predicate DatesDiffer(a: DailyRecord, b: DailyRecord)
  {
    a.date != b.date
  }

  predicate IsWeakRecord(p: Progress)
  {
    !p.isMastered && p.incorrectCount > 0
  }

  /** Every part has its counters, the history is at most a week of distinct
      days newest first, at most 100 diary entries are kept, and the weak
      list holds at most 50 unmastered records with wrong answers. */
  predicate WellFormed(s: AppStats)
  {
    && (forall p: Part :: p in s.partStats)
    && |s.dailyHistory| <= 7
    && SortedBy(s.dailyHistory, NewerFirst)
    && Pairwise(s.dailyHistory, DatesDiffer)
    && |s.diaryEntries| <= 100
    && |s.vocabStats.weakWords| <= 50
    && (forall w | w in s.vocabStats.weakWords :: IsWeakRecord(w))
  }

  /** The initial state has zeroed counters for all seven parts, counts the
      whole catalog as its vocabulary, and is well formed. */
  lemma InitialStatsFacts()
    ensures forall p: Part :: p in InitialStats.partStats && InitialStats.partStats[p] == PartStat(0, 0)
    ensures InitialStats.vocabStats.totalWords == |Wordbank.Catalog()|
    ensures WellFormed(InitialStats)
  {
  }

  // ---------------------------------------------------------------------------
  // updateQuizStats

  function IsDate(date: int): DailyRecord -> bool
  {
    (h: DailyRecord) => h.date == date
  }

  /** The history with one quiz added to today: the first row dated `today`
      gains the quiz's counts and time in place, or, when there is none, one
      new row for today is appended. */
  function UpsertToday(history: seq<DailyRecord>, today: int, correct: int, total: int, timeSpent: int): (r: seq<DailyRecord>)
    ensures var k := FindIndex(history, IsDate(today));
      if k >= 0 then
        && |r| == |history|
        && r[k] == DailyRecord(today, history[k].answered + total, history[k].correct + correct, history[k].studyTime + timeSpent)
        && (forall i | 0 <= i < |r| && i != k :: r[i] == history[i])
      else
        r == history + [DailyRecord(today, total, correct, timeSpent)]
  {
    var k := FindIndex(history, IsDate(today));
    if k >= 0 then
      var row := history[k];
      history[k := row.(answered := row.answered + total, correct := row.correct + correct, studyTime := row.studyTime + timeSpent)]
    else
      history + [DailyRecord(today, total, correct, timeSpent)]
  }

  /** Sorted newest first and cut to seven rows. */
  function NewestWeek(history: seq<DailyRecord>): seq<DailyRecord>
  {
    Prefix(SortBy(history, NewerFirst), 7)
  }

  lemma NewerFirstIsTotal()
    ensures TotalPreorder(NewerFirst)
  {
  }

  /** The kept week is sorted newest first, holds `min(7, n)` of the rows,
      and every row dropped is no newer than every row kept. */
  lemma NewestWeekKeepsNewest(history: seq<DailyRecord>)
    ensures var r := NewestWeek(history);
      && |r| == Min(7, |history|)
      && SortedBy(r, NewerFirst)
      && multiset(r) <= multiset(history)
      && (forall x, y | x in history && x !in r && y in r :: y.date >= x.date)
  {
    NewerFirstIsTotal();
    var r := NewestWeek(history);
    TopOfSorted(history, NewerFirst, |r|);
    forall x, y | x in history && x !in r && y in r ensures y.date >= x.date {
      assert NewerFirst(y, x);
    }
  }

  /** If no two rows share a date before a quiz, none do after it. */
  lemma QuizKeepsDatesDistinct(history: seq<DailyRecord>, today: int, correct: int, total: int, timeSpent: int)
    requires Pairwise(history, DatesDiffer)
    ensures Pairwise(NewestWeek(UpsertToday(history, today, correct, total, timeSpent)), DatesDiffer)
  {
    var u := UpsertToday(history, today, correct, total, timeSpent);
    var k := FindIndex(history, IsDate(today));
    forall i, j | 0 <= i < j < |u| ensures DatesDiffer(u[i], u[j]) {
      if k < 0 {
        if j == |history| {
          assert history[i].date != today;
        }
      } else {
        assert u[i].date == history[i].date && u[j].date == history[j].date;
      }
    }
    SortByPairwise(u, NewerFirst, DatesDiffer);
    var s := SortBy(u, NewerFirst);
    var r := Prefix(s, 7);
    assert forall i, j | 0 <= i < j < |r| :: r[i] == s[i] && r[j] == s[j];
  }

  /** The copy-and-upsert step of `updateQuizStats`: the first row dated
      `today` is overwritten with its counts and time increased, or a row for
      today is pushed. */
  method AddToToday(history: seq<DailyRecord>, today: int, correct: int, total: int, timeSpent: int)
    returns (dailyHistory: seq<DailyRecord>)
    ensures dailyHistory == UpsertToday(history, today, correct, total, timeSpent)
  {
    dailyHistory := history;
    var todayIndex := FindIndex(dailyHistory, IsDate(today));
    if todayIndex >= 0 {
      var row := dailyHistory[todayIndex];
      dailyHistory := dailyHistory[todayIndex := row.(answered := row.answered + total, correct := row.correct + correct, studyTime := row.studyTime + timeSpent)];
    } else {
      dailyHistory := dailyHistory + [DailyRecord(today, total, correct, timeSpent)];
    }
  }

  /** Updating one part's counters leaves every other part as it was. */
  lemma OtherPartsKept(m: map<Part, PartStat>, part: Part, v: PartStat)
    ensures forall q | q in m && q != part :: q in m[part := v] && m[part := v][q] == m[q]
  {
  }

  /** `updateQuizStats`' state change: the quiz is added to the overall
      totals, to the counters of its own part only, and to today's history
      row, after which the history is sorted newest first and cut to seven
      rows. Nothing else changes. */
  method ApplyQuiz(prev: AppStats, part: Part, correct: int, total: int, timeSpent: int, today: int)
    returns (next: AppStats)
    requires part in prev.partStats
    ensures next == prev.(
      totalAnswered := prev.totalAnswered + total,
      totalCorrect := prev.totalCorrect + correct,
      studyTime := prev.studyTime + timeSpent,
      partStats := prev.partStats[part := PartStat(prev.partStats[part].answered + total, prev.partStats[part].correct + correct)],
      dailyHistory := NewestWeek(UpsertToday(prev.dailyHistory, today, correct, total, timeSpent)))
    ensures forall q | q in prev.partStats && q != part :: q in next.partStats && next.partStats[q] == prev.partStats[q]
    ensures |next.dailyHistory| <= 7 && SortedBy(next.dailyHistory, NewerFirst)
  {
    var dailyHistory := AddToToday(prev.dailyHistory, today, correct, total, timeSpent);
    assert |NewestWeek(dailyHistory)| <= 7 && SortedBy(NewestWeek(dailyHistory), NewerFirst) by {
      NewestWeekKeepsNewest(dailyHistory);
    }
    dailyHistory := SortBy(dailyHistory, NewerFirst);
    dailyHistory := Prefix(dailyHistory, 7);

    var partStat := prev.partStats[part];
    OtherPartsKept(prev.partStats, part, PartStat(partStat.answered + total, partStat.correct + correct));
    next := prev.(
      totalAnswered := prev.totalAnswered + total,
      totalCorrect := prev.totalCorrect + correct,
      studyTime := prev.studyTime + timeSpent,
      partStats := prev.partStats[part := PartStat(partStat.answered + total, partStat.correct + correct)],
      dailyHistory := dailyHistory);
  }

  // ---------------------------------------------------------------------------
  // getTodayStats

  datatype TodaySummary = TodaySummary(answered: int, correct: int, accuracy: real, studyTime: int)

  /** `getTodayStats`: the counts of the first history row dated `today`, with
      the percentage of correct answers, or all zeros when there is no such
      row. */
  function TodayStats(stats: AppStats, today: int): (r: TodaySummary)
    ensures (forall i | 0 <= i < |stats.dailyHistory| :: stats.dailyHistory[i].date != today) ==> r == TodaySummary(0, 0, 0.0, 0)
    ensures forall i | 0 <= i < |stats.dailyHistory| && stats.dailyHistory[i].date == today
        && (forall j | 0 <= j < i :: stats.dailyHistory[j].date != today) ::
        r.answered == stats.dailyHistory[i].answered && r.correct == stats.dailyHistory[i].correct
        && r.studyTime == stats.dailyHistory[i].studyTime
    ensures r.accuracy == if r.answered > 0 then r.correct as real / r.answered as real * 100.0 else 0.0
  {
    var k := FindIndex(stats.dailyHistory, IsDate(today));
    if k < 0 then TodaySummary(0, 0, 0.0, 0)
    else
      var row := stats.dailyHistory[k];
      TodaySummary(row.answered, row.correct, if row.answered > 0 then row.correct as real / row.answered as real * 100.0 else 0.0, row.studyTime)
  }

  /** With distinct dates, none of them after `today`, a quiz taken today
      adds exactly its counts and time to what `getTodayStats` reports. */
  lemma QuizAddsToToday(prev: AppStats, next: AppStats, correct: int, total: int, timeSpent: int, today: int)
    requires Pairwise(prev.dailyHistory, DatesDiffer)
    requires forall i | 0 <= i < |prev.dailyHistory| :: prev.dailyHistory[i].date <= today
    requires next.dailyHistory == NewestWeek(UpsertToday(prev.dailyHistory, today, correct, total, timeSpent))
    ensures TodayStats(next, today).answered == TodayStats(prev, today).answered + total
    ensures TodayStats(next, today).correct == TodayStats(prev, today).correct + correct
    ensures TodayStats(next, today).studyTime == TodayStats(prev, today).studyTime + timeSpent
  {
    var before := TodayStats(prev, today);
    var u := UpsertToday(prev.dailyHistory, today, correct, total, timeSpent);
    var t := TodayRowAfterUpsert(prev, correct, total, timeSpent, today);
    NewestFirstIsToday(u, t, today);
    var r := next.dailyHistory;
    assert r[0] == u[t];
    assert IsDate(today)(r[0]);
    assert FindIndex(r, IsDate(today)) == 0;
  }

  /** After the upsert, exactly one row (at position `t`) is dated `today`; it
      carries what `getTodayStats` reported before plus the quiz; and no row
      is dated after `today`. */
  lemma TodayRowAfterUpsert(prev: AppStats, correct: int, total: int, timeSpent: int, today: int) returns (t: nat)
    requires Pairwise(prev.dailyHistory, DatesDiffer)
    requires forall i | 0 <= i < |prev.dailyHistory| :: prev.dailyHistory[i].date <= today
    ensures var u := UpsertToday(prev.dailyHistory, today, correct, total, timeSpent);
      var before := TodayStats(prev, today);
      && t < |u|
      && u[t] == DailyRecord(today, before.answered + total, before.correct + correct, before.studyTime + timeSpent)
      && (forall j | 0 <= j < |u| && j != t :: u[j].date != today)
      && (forall j | 0 <= j < |u| :: u[j].date <= today)
  {
    var h := prev.dailyHistory;
    var u := UpsertToday(h, today, correct, total, timeSpent);
    var k := FindIndex(h, IsDate(today));
    t := if k >= 0 then k else |h|;
    forall j | 0 <= j < |u| && j != t ensures u[j].date != today {
      assert u[j] == h[j];
      if k >= 0 && j > k {
        assert DatesDiffer(h[k], h[j]);
      } else {
        assert !IsDate(today)(h[j]);
      }
    }
    forall j | 0 <= j < |u| ensures u[j].date <= today {
      if j != t { assert u[j] == h[j]; }
    }
  }

  /** When one row is dated `today` and none later, that row heads the kept
      week. */
  lemma NewestFirstIsToday(u: seq<DailyRecord>, t: nat, today: int)
    requires t < |u| && u[t].date == today
    requires forall j | 0 <= j < |u| && j != t :: u[j].date != today
    requires forall j | 0 <= j < |u| :: u[j].date <= today
    ensures |NewestWeek(u)| > 0 && NewestWeek(u)[0] == u[t]
  {
    var s := SortBy(u, NewerFirst);
    SortBySorted(u, NewerFirst);
    assert u[t] in multiset(s);
    var m :| 0 <= m < |s| && s[m] == u[t];
    assert NewerFirst(s[0], s[m]);
    assert s[0] in multiset(u);
    var j0 :| 0 <= j0 < |u| && u[j0] == s[0];
    assert u[j0].date == today;
    assert j0 == t;
  }

  // ---------------------------------------------------------------------------
  // getRecentHistory

  /** `getRecentHistory(days)`: the first `days` rows (JavaScript slice
      semantics, so a negative count drops rows from the end) in reverse
      order. */
  function RecentHistory(stats: AppStats, days: int): (r: seq<DailyRecord>)
    ensures |r| == SliceEnd(|stats.dailyHistory|, days)
    ensures days >= 0 ==> |r| == Min(days, |stats.dailyHistory|)
    ensures forall i | 0 <= i < |r| :: r[i] == stats.dailyHistory[|r| - 1 - i]
  {
    Reverse(Prefix(stats.dailyHistory, days))
  }

  /** A history kept newest first reads oldest first through
      `getRecentHistory`. */
  lemma RecentHistoryChronological(stats: AppStats, days: int)
    requires SortedBy(stats.dailyHistory, NewerFirst)
    ensures SortedBy(RecentHistory(stats, days), OlderFirst)
  {
    var r := RecentHistory(stats, days);
    var h := stats.dailyHistory;
    forall i, j | 0 <= i < j < |r| ensures OlderFirst(r[i], r[j]) {
      assert r[i] == h[|r| - 1 - i] && r[j] == h[|r| - 1 - j];
      assert NewerFirst(h[|r| - 1 - j], h[|r| - 1 - i]);
    }
  }

  // ---------------------------------------------------------------------------
  // updateVocabStats

  /** `correctCount / (correctCount + incorrectCount || 1)`. */
  function Rate(p: Progress): real
  {
    var answers := p.correctCount + p.incorrectCount;
    p.correctCount as real / (if answers == 0 then 1 else answers) as real
  }

  /** Lower rate first: the order the comparator `aRate - bRate` sorts by. */
  predicate LowerRateFirst(a: Progress, b: Progress)
  {
    Rate(a) <= Rate(b)
  }

  lemma LowerRateFirstIsTotal()
    ensures TotalPreorder(LowerRateFirst)
  {
  }

  /** `updateVocabStats`' state change: the number of mastered records and up
      to 50 unmastered records with wrong answers, lowest rate first; the
      vocabulary total and every other field stay as they were. */
  function ApplyVocab(prev: AppStats, progress: seq<Progress>): (next: AppStats)
    ensures next == prev.(vocabStats := next.vocabStats)
    ensures next.vocabStats.totalWords == prev.vocabStats.totalWords
    ensures next.vocabStats.masteredWords == |set i: nat | i < |progress| && progress[i].isMastered|
    ensures next.vocabStats.masteredWords <= |progress|
    ensures multiset(next.vocabStats.weakWords) <= multiset(progress)
    ensures forall w | w in next.vocabStats.weakWords :: IsWeakRecord(w)
    ensures |next.vocabStats.weakWords| == Min(50, |Filter(progress, IsWeakRecord)|)
  {
    var masteredWords := |Filter(progress, IsMastered)|;
    MasteredFilterCount(progress);
    var candidates := Filter(progress, IsWeakRecord);
    var sorted := SortBy(candidates, LowerRateFirst);
    var weakWords := Prefix(sorted, 50);
    PrefixMultiset(sorted, |weakWords|);
    assert forall w | w in weakWords :: w in multiset(candidates);
    prev.(vocabStats := prev.vocabStats.(masteredWords := masteredWords, weakWords := weakWords))
  }

  /** The weak list is sorted by rate, every candidate left out has no lower
      rate than any kept record, and when at most 50 records qualify all of
      them are kept. */
  lemma VocabWeakRanked(prev: AppStats, progress: seq<Progress>)
    ensures var r := ApplyVocab(prev, progress).vocabStats.weakWords;
      && SortedBy(r, LowerRateFirst)
      && (forall x, y | x in progress && IsWeakRecord(x) && x !in r && y in r :: Rate(y) <= Rate(x))
      && (|Filter(progress, IsWeakRecord)| <= 50 ==> multiset(r) == multiset(Filter(progress, IsWeakRecord)))
  {
    var candidates := Filter(progress, IsWeakRecord);
    assert ApplyVocab(prev, progress).vocabStats.weakWords == Prefix(SortBy(candidates, LowerRateFirst), 50);
    LowestRatesKept(candidates);
  }

  /** The first 50 candidates by rate: sorted, no left-out candidate has a
      lower rate than a kept one, and all are kept when there are at most
      50. */
  lemma LowestRatesKept(candidates: seq<Progress>)
    ensures var r := Prefix(SortBy(candidates, LowerRateFirst), 50);
      && SortedBy(r, LowerRateFirst)
      && (forall x, y | x in candidates && x !in r && y in r :: Rate(y) <= Rate(x))
      && (|candidates| <= 50 ==> multiset(r) == multiset(candidates))
  {
    var sorted := SortBy(candidates, LowerRateFirst);
    var r := Prefix(sorted, 50);
    LowerRateFirstIsTotal();
    TopOfSorted(candidates, LowerRateFirst, |r|);
    forall x, y | x in candidates && x !in r && y in r ensures Rate(y) <= Rate(x) {
      assert LowerRateFirst(y, x);
    }
    if |candidates| <= 50 {
      assert r == sorted;
    }
  }

  // ---------------------------------------------------------------------------
  // addDiaryEntry and getWeakWords

  /** `addDiaryEntry`'s state change: the entry goes first, followed by the
      old entries in their order, at most 100 in all. */
  function ApplyDiaryEntry(prev: AppStats, entry: DiaryEntry): (next: AppStats)
    ensures next == prev.(diaryEntries := next.diaryEntries)
    ensures |next.diaryEntries| == Min(100, |prev.diaryEntries| + 1)
    ensures next.diaryEntries[0] == entry
    ensures next.diaryEntries[1..] == prev.diaryEntries[..|next.diaryEntries| - 1]
  {
    prev.(diaryEntries := Prefix([entry] + prev.diaryEntries, 100))
  }

  /** `getWeakWords`: the stored weak list, which in a well-formed state holds
      at most 50 unmastered records with wrong answers. */
  function WeakWords(stats: AppStats): (r: seq<Progress>)
    ensures WellFormed(stats) ==> |r| <= 50 && forall w | w in r :: IsWeakRecord(w)
  {
    stats.vocabStats.weakWords
  }

  /** Each state change keeps the state well formed. */
  lemma UpdatesKeepWellFormed(prev: AppStats, progress: seq<Progress>, entry: DiaryEntry)
    requires WellFormed(prev)
    ensures WellFormed(ApplyVocab(prev, progress))
    ensures WellFormed(ApplyDiaryEntry(prev, entry))
  {
  }

  // ---------------------------------------------------------------------------
  // The provider

  /** `AppProvider`: holds the statistics record, which each update replaces
      with the next state. */
  class AppProvider {
    var stats: AppStats

    ghost predicate Valid()
      reads this
    {
      WellFormed(stats)
    }

    constructor ()
      ensures stats == InitialStats
      ensures Valid()
    {
      stats := InitialStats;
      InitialStatsFacts();
    }

    method UpdateQuizStats(part: Part, correct: int, total: int, timeSpent: int, today: int)
      requires Valid()
      modifies this
      ensures Valid()
      ensures stats.totalAnswered == old(stats.totalAnswered) + total
      ensures stats.totalCorrect == old(stats.totalCorrect) + correct
      ensures stats.studyTime == old(stats.studyTime) + timeSpent
      ensures stats.partStats == old(stats.partStats)[part := PartStat(old(stats.partStats[part].answered) + total, old(stats.partStats[part].correct) + correct)]
      ensures stats.vocabStats == old(stats.vocabStats) && stats.diaryEntries == old(stats.diaryEntries)
      ensures stats.dailyHistory == NewestWeek(UpsertToday(old(stats.dailyHistory), today, correct, total, timeSpent))
    {
      var next := ApplyQuiz(stats, part, correct, total, timeSpent, today);
      QuizKeepsDatesDistinct(stats.dailyHistory, today, correct, total, timeSpent);
      stats := next;
    }

    method UpdateVocabStats(progress: seq<Progress>)
      requires Valid()
      modifies this
      ensures Valid()
      ensures stats == ApplyVocab(old(stats), progress)
    {
      UpdatesKeepWellFormed(stats, progress, DiaryEntry("", 0, "", None, None, None, false));
      stats := ApplyVocab(stats, progress);
    }

    method AddDiaryEntry(entry: DiaryEntry)
      requires Valid()
      modifies this
      ensures Valid()
      ensures stats == ApplyDiaryEntry(old(stats), entry)
    {
      UpdatesKeepWellFormed(stats, [], entry);
      stats := ApplyDiaryEntry(stats, entry);
    }
  }
}
