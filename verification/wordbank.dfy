/** The generated 1000-word catalog and its lookups. Level 1 and level 2 have
    400 words each and level 3 has 200; in each level the first ten words come
    from a hand-written list and the rest are numbered placeholders. */
module Wordbank {
  import opened Wrappers
  import opened Seqs
  import opened Decimal
  import opened VocabularyTypes

  const WordCategories: seq<string> := [
    "ビジネス・雇用",
    "オフィス・事務",
    "マーケティング・販売",
    "財務・会計",
    "製造・生産",
    "旅行・ホテル",
    "レストラン・飲食",
    "会議・イベント",
    "契約・法律",
    "技術・IT",
    "コミュニケーション",
    "一般ビジネス"
  ]

  datatype BaseWord = BaseWord(word: string, meaning: string, category: string)

  const Level1Base: seq<BaseWord> := [
    BaseWord("apply", "応募する、申し込む", "ビジネス・雇用"),
    BaseWord("available", "利用可能な", "一般ビジネス"),
    BaseWord("confirm", "確認する", "コミュニケーション"),
    BaseWord("schedule", "予定、スケジュール", "オフィス・事務"),
    BaseWord("meeting", "会議", "会議・イベント"),
    BaseWord("customer", "顧客", "マーケティング・販売"),
    BaseWord("product", "製品", "製造・生産"),
    BaseWord("service", "サービス", "一般ビジネス"),
    BaseWord("report", "報告書", "オフィス・事務"),
    BaseWord("manager", "管理者", "ビジネス・雇用")
  ]

  const Level2Base: seq<BaseWord> := [
    BaseWord("notwithstanding", "～にもかかわらず", "一般ビジネス"),
    BaseWord("substantial", "相当な、かなりの", "一般ビジネス"),
    BaseWord("implement", "実施する、実装する", "ビジネス・雇用"),
    BaseWord("accommodate", "収容する、対応する", "旅行・ホテル"),
    BaseWord("revenue", "収益", "財務・会計"),
    BaseWord("competent", "有能な", "ビジネス・雇用"),
    BaseWord("liability", "責任、負債", "契約・法律"),
    BaseWord("prospective", "見込みのある", "マーケティング・販売"),
    BaseWord("collaborate", "協力する", "コミュニケーション"),
    BaseWord("specifications", "仕様", "技術・IT")
  ]

  const Level3Base: seq<BaseWord> := [
    BaseWord("contingent", "条件付きの", "契約・法律"),
    BaseWord("mitigate", "軽減する", "一般ビジネス"),
    BaseWord("stipulate", "規定する", "契約・法律"),
    BaseWord("confer", "協議する、授与する", "コミュニケーション"),
    BaseWord("procurement", "調達", "製造・生産"),
    BaseWord("commensurate", "釣り合った", "財務・会計"),
    BaseWord("exacerbate", "悪化させる", "一般ビジネス"),
    BaseWord("incumbent", "現職の、義務として", "ビジネス・雇用"),
    BaseWord("litigation", "訴訟", "契約・法律"),
    BaseWord("reimbursement", "払い戻し", "財務・会計")
  ]

  // ---------------------------------------------------------------------------
  // Ids

  /** `vocab_` followed by the sequence number, zero-padded to four digits. */
  function VocabId(n: nat): string
  {
    "vocab_" + PadStart(NatToString(n), 4, '0')
  }

  /** The sequence number an id carries, if it has the `vocab_<digits>` form. */
  function IdNumber(id: string): Option<nat>
  {
    if |id| > 6 && id[..6] == "vocab_" && AllDigits(id[6..]) then Some(DecimalValue(id[6..]))
    else None
  }

  /** Reading the number back from an id gives the number it was made from. */
  lemma VocabIdRoundTrip(n: nat)
    ensures IdNumber(VocabId(n)) == Some(n)
  {
    var digits := NatToString(n);
    var padded := PadStart(digits, 4, '0');
    var id := VocabId(n);
    assert id[..6] == "vocab_" && id[6..] == padded;
    LeadingZeros(|padded| - |digits|, digits);
    DecimalValueOfNatToString(n);
  }

  /** Different numbers give different ids. */
  lemma VocabIdInjective(m: nat, n: nat)
    requires m != n
    ensures VocabId(m) != VocabId(n)
  {
    VocabIdRoundTrip(m);
    VocabIdRoundTrip(n);
  }

  /** Up to 9999 every id is ten characters long. */
  lemma VocabIdLength(n: nat)
    requires n < 10000
    ensures |VocabId(n)| == 10
  {
  }

  // ---------------------------------------------------------------------------
  // Words

  /** `createWord`: a catalog entry with its id derived from `id`, the given
      text, level and category, placeholder pronunciation and example, and no
      synonyms, antonyms or collocations. */
  function CreateWord(id: nat, word: string, meaning: string, level: Level, category: string): (w: Word)
    ensures IdNumber(w.id) == Some(id)
    ensures w.word == word && w.meaning == meaning && w.level == level && w.category == category
    ensures w.synonyms == [] && w.antonyms == [] && w.collocations == []
  {
    VocabIdRoundTrip(id);
    Word(
      id := VocabId(id),
      word := word,
      pronunciation := "/placeholder/",
      audioUrl := "",
      meaning := meaning,
      synonyms := [],
      antonyms := [],
      collocations := [],
      exampleSentence := "Example sentence using " + word + ".",
      exampleTranslation := word + "を使った例文の和訳。",
      level := level,
      category := category)
  }

  /** The name of the `i`-th placeholder word of a level: `word_l{level}_{i}`. */
  function GeneratedName(level: Level, i: nat): string
  {
    "word_l" + NatToString(level) + "_" + NatToString(i)
  }

  function GeneratedMeaning(i: nat): string
  {
    "意味" + NatToString(i)
  }

  /** The `i`-th word of a level whose first sequence number is `firstId`. */
  function LevelWord(level: Level, base: seq<BaseWord>, firstId: nat, i: nat): Word
  {
    if i < |base| then CreateWord(firstId + i, base[i].word, base[i].meaning, level, base[i].category)
    else CreateWord(firstId + i, GeneratedName(level, i), GeneratedMeaning(i), level, WordCategories[i % |WordCategories|])
  }

  function LevelBlock(level: Level, base: seq<BaseWord>, firstId: nat, size: nat): (b: seq<Word>)
    ensures |b| == size
  {
    seq(size, i requires 0 <= i < size => LevelWord(level, base, firstId, i))
  }

  lemma LevelBlockAt(level: Level, base: seq<BaseWord>, firstId: nat, size: nat, i: nat)
    requires i < size
    ensures LevelBlock(level, base, firstId, size)[i] == LevelWord(level, base, firstId, i)
  {
  }

  /** A block word within the base list is made from that base entry. */
  lemma BlockBaseWord(level: Level, base: seq<BaseWord>, firstId: nat, size: nat, i: nat)
    requires i < |base| && i < size
    ensures LevelBlock(level, base, firstId, size)[i]
      == CreateWord(firstId + i, base[i].word, base[i].meaning, level, base[i].category)
  {
    LevelBlockAt(level, base, firstId, size, i);
  }

  /** A block word past the base list is a generated placeholder. */
  lemma BlockGeneratedWord(level: Level, base: seq<BaseWord>, firstId: nat, size: nat, i: nat)
    requires |base| <= i < size
    ensures LevelBlock(level, base, firstId, size)[i]
      == CreateWord(firstId + i, GeneratedName(level, i), GeneratedMeaning(i), level, WordCategories[i % |WordCategories|])
  {
    LevelBlockAt(level, base, firstId, size, i);
  }

  /** Appending the `i`-th hand-written word extends the level by one word. */
  lemma BaseStep(words: seq<Word>, id: nat, level: Level, base: seq<BaseWord>, size: nat, i: nat)
    requires i < |base| && i < size
    ensures words + LevelBlock(level, base, id, size)[..i]
        + [CreateWord(id + i, base[i].word, base[i].meaning, level, base[i].category)]
      == words + LevelBlock(level, base, id, size)[..i + 1]
  {
    BlockBaseWord(level, base, id, size, i);
    AfterPrefixExtend(words, LevelBlock(level, base, id, size), i);
  }

  /** Appending the `i`-th placeholder extends the level by one word. */
  lemma PlaceholderStep(words: seq<Word>, id: nat, level: Level, base: seq<BaseWord>, size: nat, i: nat)
    requires |base| <= i < size
    ensures words + LevelBlock(level, base, id, size)[..i]
        + [CreateWord(id + i, GeneratedName(level, i), GeneratedMeaning(i), level, WordCategories[i % |WordCategories|])]
      == words + LevelBlock(level, base, id, size)[..i + 1]
  {
    BlockGeneratedWord(level, base, id, size, i);
    AfterPrefixExtend(words, LevelBlock(level, base, id, size), i);
  }

  /** The catalog `generate1000Words` builds. */
  function Catalog(): (words: seq<Word>)
    ensures |words| == 1000
  {
    LevelBlock(1, Level1Base, 1, 400) + LevelBlock(2, Level2Base, 401, 400) + LevelBlock(3, Level3Base, 801, 200)
  }

  /** One level of `generate1000Words`: a loop appending the hand-written
      words (at most ten), then a loop appending numbered placeholders up to
      `size`, all numbered on from `id`. */
  method AppendLevel(words: seq<Word>, id: nat, level: Level, base: seq<BaseWord>, size: nat)
    returns (out: seq<Word>, nextId: nat)
    requires |base| <= 10 && |base| <= size
    ensures out == words + LevelBlock(level, base, id, size)
    ensures nextId == id + size
  {
    out, nextId := AppendBaseWords(words, id, level, base, size);
    out, nextId := AppendPlaceholders(out, nextId, words, id, level, base, size);
  }

  /** The first loop of a level: its hand-written words, numbered from `id`. */
  method AppendBaseWords(words: seq<Word>, id: nat, level: Level, base: seq<BaseWord>, size: nat)
    returns (out: seq<Word>, nextId: nat)
    requires |base| <= 10 && |base| <= size
    ensures out == words + LevelBlock(level, base, id, size)[..|base|]
    ensures nextId == id + |base|
  {
    ghost var block := LevelBlock(level, base, id, size);
    out, nextId := words, id;
    assert words + block[..0] == words;
    for i := 0 to Min(10, |base|)
      invariant nextId == id + i
      invariant out == words + block[..i]
    {
      var b := base[i];
      BaseStep(words, id, level, base, size, i);
      out := out + [CreateWord(nextId, b.word, b.meaning, level, b.category)];
      nextId := nextId + 1;
    }
  }

  /** The second loop of a level: placeholders from the end of the base list
      up to `size`, continuing the level that started at `words` and `id`. */
  method AppendPlaceholders(out0: seq<Word>, nextId0: nat, ghost words: seq<Word>, ghost id: nat,
                            level: Level, base: seq<BaseWord>, size: nat)
    returns (out: seq<Word>, nextId: nat)
    requires |base| <= size
    requires out0 == words + LevelBlock(level, base, id, size)[..|base|]
    requires nextId0 == id + |base|
    ensures out == words + LevelBlock(level, base, id, size)
    ensures nextId == id + size
  {
    ghost var block := LevelBlock(level, base, id, size);
    out, nextId := out0, nextId0;
    for i := |base| to size
      invariant nextId == id + i
      invariant out == words + block[..i]
    {
      PlaceholderStep(words, id, level, base, size, i);
      out := out + [CreateWord(nextId, GeneratedName(level, i), GeneratedMeaning(i), level, WordCategories[i % |WordCategories|])];
      nextId := nextId + 1;
    }
    assert block[..size] == block;
  }

  /** `generate1000Words`: the three levels appended in order, numbered with
      one running id. */
  method Generate1000Words() returns (words: seq<Word>)
    ensures words == Catalog()
  {
    words := BuildLevels(Level1Base, Level2Base, Level3Base);
  }

  /** The body of `generate1000Words` over its three hand-written lists. */
  method BuildLevels(level1Base: seq<BaseWord>, level2Base: seq<BaseWord>, level3Base: seq<BaseWord>)
    returns (words: seq<Word>)
    requires |level1Base| <= 10 && |level2Base| <= 10 && |level3Base| <= 10
    ensures words == LevelBlock(1, level1Base, 1, 400) + LevelBlock(2, level2Base, 401, 400)
      + LevelBlock(3, level3Base, 801, 200)
  {
    var id := 1;
    words, id := AppendLevel([], id, 1, level1Base, 400);
    words, id := AppendLevel(words, id, 2, level2Base, 400);
    words, id := AppendLevel(words, id, 3, level3Base, 200);
    assert [] + LevelBlock(1, level1Base, 1, 400) == LevelBlock(1, level1Base, 1, 400);
  }

  // ---------------------------------------------------------------------------
  // Catalog layout

  /** The level of the `k`-th catalog word: the first 400 are level 1, the
      next 400 level 2, the last 200 level 3. */
  function LevelAt(k: nat): Level
  {
    if k < 400 then 1 else if k < 800 then 2 else 3
  }

  /** Catalog index where the block of `level` starts. */
  function BlockStart(level: Level): nat
  {
    if level == 1 then 0 else if level == 2 then 400 else 800
  }

  function BaseOf(level: Level): seq<BaseWord>
  {
    if level == 1 then Level1Base else if level == 2 then Level2Base else Level3Base
  }

  /** The `k`-th catalog word has sequence number `k + 1`, sits in the level
      its block says, and is the hand-written word or the placeholder its
      position inside the block calls for. */
  lemma CatalogEntry(k: nat)
    requires k < 1000
    ensures Catalog()[k] == LevelWord(LevelAt(k), BaseOf(LevelAt(k)), BlockStart(LevelAt(k)) + 1, k - BlockStart(LevelAt(k)))
    ensures Catalog()[k].id == VocabId(k + 1)
    ensures Catalog()[k].level == LevelAt(k)
  {
    var b1, b2, b3 := LevelBlock(1, Level1Base, 1, 400), LevelBlock(2, Level2Base, 401, 400), LevelBlock(3, Level3Base, 801, 200);
    assert Catalog() == b1 + b2 + b3;
    var level := LevelAt(k);
    var i := k - BlockStart(level);
    if k < 400 {
      assert level == 1 && i == k;
      LevelBlockAt(1, Level1Base, 1, 400, k);
      assert Catalog()[k] == b1[k];
      assert BaseOf(level) == Level1Base && k + 1 - i == 1;
    } else if k < 800 {
      assert level == 2 && i == k - 400;
      LevelBlockAt(2, Level2Base, 401, 400, i);
      assert Catalog()[k] == b2[i];
      assert BaseOf(level) == Level2Base && k + 1 - i == 401;
    } else {
      assert level == 3 && i == k - 800;
      LevelBlockAt(3, Level3Base, 801, 200, i);
      assert Catalog()[k] == b3[i];
      assert BaseOf(level) == Level3Base && k + 1 - i == 801;
    }
    LevelWordFacts(level, BaseOf(level), k + 1 - i, i);
  }

  /** A level word carries the sequence number its position gives it and
      the level of its block. */
  lemma LevelWordFacts(level: Level, base: seq<BaseWord>, firstId: nat, i: nat)
    ensures LevelWord(level, base, firstId, i).id == VocabId(firstId + i)
    ensures LevelWord(level, base, firstId, i).level == level
  {
  }

  /** Past the ten hand-written words of its level, a catalog word is the
      placeholder `word_l{level}_{i}` whose category cycles through the
      twelve categories. */
  lemma CatalogPlaceholder(k: nat)
    requires k < 1000 && k - BlockStart(LevelAt(k)) >= 10
    ensures var i := k - BlockStart(LevelAt(k));
      Catalog()[k].word == GeneratedName(LevelAt(k), i)
      && Catalog()[k].meaning == GeneratedMeaning(i)
      && Catalog()[k].category == WordCategories[i % 12]
  {
    CatalogEntry(k);
  }

  /** No two catalog words share an id. */
  lemma CatalogIdsDistinct(i: nat, j: nat)
    requires i < j < 1000
    ensures Catalog()[i].id != Catalog()[j].id
  {
    CatalogEntry(i);
    CatalogEntry(j);
    VocabIdInjective(i + 1, j + 1);
  }

  // ---------------------------------------------------------------------------
  // Lookups

  /** The test `getWordsByLevel` filters with. */
  function LevelIs(level: Level): Word -> bool
  {
    (w: Word) => w.level == level
  }

  /** `getWordsByLevel`: the catalog words of one level, in catalog order. */
  function GetWordsByLevel(level: Level): (r: seq<Word>)
  {
    Filter(Catalog(), LevelIs(level))
  }

  lemma CatalogLevels()
    ensures forall k | 0 <= k < 1000 :: Catalog()[k].level == LevelAt(k)
  {
    forall k | 0 <= k < 1000 ensures Catalog()[k].level == LevelAt(k) { CatalogEntry(k); }
  }

  /** Number of catalog words of each level. */
  function BlockSize(level: Level): nat
  {
    if level == 3 then 200 else 400
  }

  /** The level lookups are exactly the three blocks of the catalog: 400
      level-1 words, then 400 level-2 words, then 200 level-3 words. */
  lemma LevelsAreBlocks(level: Level)
    ensures BlockStart(level) + BlockSize(level) <= |Catalog()|
    ensures GetWordsByLevel(level) == Catalog()[BlockStart(level)..BlockStart(level) + BlockSize(level)]
  {
    CatalogLevels();
    FilterByBlock(Catalog(), level);
  }

  /** In any 1000 words laid out in the catalog's level blocks, filtering by
      level picks out one block. */
  lemma FilterByBlock(c: seq<Word>, level: Level)
    requires |c| == 1000
    requires forall k | 0 <= k < 1000 :: c[k].level == LevelAt(k)
    ensures BlockStart(level) + BlockSize(level) <= |c|
    ensures Filter(c, LevelIs(level)) == c[BlockStart(level)..BlockStart(level) + BlockSize(level)]
  {
    assert BlockStart(level) + BlockSize(level) <= 1000;
    var a, b, d := c[..400], c[400..800], c[800..];
    assert c == a + b + d;
    SliceLevels(c, 0, 400, 1);
    SliceLevels(c, 400, 800, 2);
    SliceLevels(c, 800, 1000, 3);
    LevelFilter(a, b, d);
    if level == 1 {
      assert c[0..400] == a;
    } else if level == 3 {
      assert c[800..1000] == d;
    }
  }

  lemma SliceLevels(c: seq<Word>, lo: nat, hi: nat, level: Level)
    requires lo <= hi <= |c|
    requires forall k | lo <= k < hi :: c[k].level == level
    ensures forall i | 0 <= i < hi - lo :: c[lo..hi][i].level == level
  {
  }

  /** Filtering three single-level blocks by level keeps exactly the block
      of that level. */
  lemma LevelFilter(a: seq<Word>, b: seq<Word>, d: seq<Word>)
    requires forall i | 0 <= i < |a| :: a[i].level == 1
    requires forall i | 0 <= i < |b| :: b[i].level == 2
    requires forall i | 0 <= i < |d| :: d[i].level == 3
    ensures Filter(a + b + d, LevelIs(1)) == a
    ensures Filter(a + b + d, LevelIs(2)) == b
    ensures Filter(a + b + d, LevelIs(3)) == d
  {
    var p1, p2, p3 := LevelIs(1), LevelIs(2), LevelIs(3);
    FilterConcat(a + b, d, p1);
    FilterConcat(a, b, p1);
    FilterAll(a, p1);
    FilterNone(b, p1);
    FilterNone(d, p1);
    FilterConcat(a + b, d, p2);
    FilterConcat(a, b, p2);
    FilterNone(a, p2);
    FilterAll(b, p2);
    FilterNone(d, p2);
    FilterConcat(a + b, d, p3);
    FilterConcat(a, b, p3);
    FilterNone(a, p3);
    FilterNone(b, p3);
    FilterAll(d, p3);
  }

  /** `getWordsByCategory`: the catalog words of one category, in catalog
      order. */
  function GetWordsByCategory(category: string): (r: seq<Word>)
    ensures forall w | w in r :: w in Catalog() && w.category == category
    ensures forall k | 0 <= k < 1000 && Catalog()[k].category == category :: Catalog()[k] in r
  {
    Filter(Catalog(), (w: Word) => w.category == category)
  }

  /** `getAllWords`: the whole catalog, numbered `vocab_0001` to
      `vocab_1000` in order. */
  function GetAllWords(): (r: seq<Word>)
    ensures |r| == 1000
    ensures forall k | 0 <= k < 1000 :: r[k].id == VocabId(k + 1)
  {
    CatalogIds();
    Catalog()
  }

  lemma CatalogIds()
    ensures forall k | 0 <= k < 1000 :: Catalog()[k].id == VocabId(k + 1)
  {
    forall k | 0 <= k < 1000 ensures Catalog()[k].id == VocabId(k + 1) { CatalogEntry(k); }
  }

  /** `getWordById`: the first catalog word carrying `id`, if any. */
  function GetWordById(id: string): (r: Option<Word>)
    ensures r.Some? ==> r.value in Catalog() && r.value.id == id
    ensures r.None? <==> forall k | 0 <= k < 1000 :: Catalog()[k].id != id
  {
    var k := FindIndex(Catalog(), (w: Word) => w.id == id);
    if k < 0 then None else Some(Catalog()[k])
  }

  /** Sequence numbers 1 to 1000 find their own catalog word. */
  lemma GetWordByIdFinds(n: nat)
    requires 1 <= n <= 1000
    ensures GetWordById(VocabId(n)) == Some(Catalog()[n - 1])
  {
    CatalogEntry(n - 1);
    var k := FindIndex(Catalog(), (w: Word) => w.id == VocabId(n));
    forall i | 0 <= i < 1000 && i != n - 1
      ensures Catalog()[i].id != VocabId(n)
    {
      if i < n - 1 { CatalogIdsDistinct(i, n - 1); } else { CatalogIdsDistinct(n - 1, i); }
    }
    assert k == n - 1;
  }

  /** A lookup succeeds only for an id `vocab_` + a number from 1 to 1000,
      and then returns the word with that sequence number. */
  lemma GetWordByIdOnlyCatalogIds(id: string)
    requires GetWordById(id).Some?
    ensures IdNumber(id).Some? && 1 <= IdNumber(id).value <= 1000
    ensures GetWordById(id) == Some(Catalog()[IdNumber(id).value - 1])
  {
    var w := GetWordById(id).value;
    var k :| 0 <= k < 1000 && Catalog()[k] == w;
    CatalogEntry(k);
    VocabIdRoundTrip(k + 1);
    GetWordByIdFinds(k + 1);
  }
}
