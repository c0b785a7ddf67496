/** The review orchestrator (ReviewService): the due queue with its per-user,
    per-day cache, self-ratings, test answers, the scheduling update applied to
    a vocabulary entry, and the four-option test question. "Now" and "today" are
    day numbers passed in by the caller; the random source of the shuffles is a
    stream of draws passed in as well. */
module ReviewService {
  import opened Common
  import opened Entities
  import opened Tables
  import SM2
  import Shuffle

  /** "Vocabulary record does not exist" (absent, or owned by another user). */
  const RecordNotFound := 3001
  /** The generic handler's code for an unexpected exception (a null word). */
  const InternalError := 500
  /** The LIMIT of the due query `findByUserId(userId, "review", 0, 100)`. */
  const QueueLimit := 100

  // ---------------------------------------------------------------------------
  // The scheduling update (applySM2)

  /** The entry after one graded review of the given quality at day `now`:
      null scheduling fields default to interval 0, ease 2.5, familiarity 0 and
      review count 0; the scheduler's interval and ease are stored; the next
      review falls `interval` days after now; familiarity moves by the
      scheduler's delta, clamped to [0, 100]; the review count goes up by one. */
  function Reviewed(v: Vocabulary, quality: int, now: int): (r: Vocabulary)
    ensures r.id == v.id && r.userId == v.userId && r.wordId == v.wordId && r.word == v.word
    ensures var s := SM2.Calculate(OrElse(v.intervalDays, 0), OrElse(v.easinessFactor, SM2.DefaultEase), quality);
      r.intervalDays == Some(s.intervalDays) && r.easinessFactor == Some(s.easinessFactor)
    ensures r.nextReviewDate.Some? && r.intervalDays.Some?
      && r.nextReviewDate.value == now + r.intervalDays.value && r.lastReviewDate == Some(now)
    ensures r.reviewCount == Some(OrElse(v.reviewCount, 0) + 1)
    ensures var raw := OrElse(v.familiarity, 0)
        + SM2.Calculate(OrElse(v.intervalDays, 0), OrElse(v.easinessFactor, SM2.DefaultEase), quality).familiarityDelta;
      r.familiarity.Some? && 0 <= r.familiarity.value <= 100
      && (r.familiarity.value == raw || (r.familiarity.value == 0 && raw < 0)
          || (r.familiarity.value == 100 && raw > 100))
    ensures WellScheduled(v) ==> WellScheduled(r)
  {
    var interval := OrElse(v.intervalDays, 0);
    var ease := OrElse(v.easinessFactor, SM2.DefaultEase);
    var s := SM2.Calculate(interval, ease, quality);
    assert WellScheduled(v) ==> s.intervalDays >= 1 by {
      if WellScheduled(v) {
        SM2.IntervalPositive(interval, ease, quality);
      }
    }
    v.(intervalDays := Some(s.intervalDays),
       easinessFactor := Some(s.easinessFactor),
       nextReviewDate := Some(now + s.intervalDays),
       lastReviewDate := Some(now),
       reviewCount := Some(OrElse(v.reviewCount, 0) + 1),
       familiarity := Some(Clamp(OrElse(v.familiarity, 0) + s.familiarityDelta, 0, 100)))
  }

  /** The entry after a sequence of graded reviews, all at day `now`. */
  function ReviewedAll(v: Vocabulary, qualities: seq<int>, now: int): Vocabulary
    decreases |qualities|
  {
    if qualities == [] then v
    else ReviewedAll(Reviewed(v, qualities[0], now), qualities[1..], now)
  }

  /** Whatever the qualities, familiarity stays within [0, 100], the ease never
      drops below 1.3, and the review count grows by exactly one per review. */
  lemma {:induction false} RepeatedReviews(v: Vocabulary, qualities: seq<int>, now: int)
    requires WellScheduled(v)
    ensures WellScheduled(ReviewedAll(v, qualities, now))
    ensures ReviewedAll(v, qualities, now).reviewCount
      == if qualities == [] then v.reviewCount else Some(OrElse(v.reviewCount, 0) + |qualities|)
    ensures qualities != [] ==> ReviewedAll(v, qualities, now).familiarity.Some?
    decreases |qualities|
  {
    if qualities != [] {
      RepeatedReviews(Reviewed(v, qualities[0], now), qualities[1..], now);
    }
  }

  /** A fresh entry: interval 0, ease 2.5, familiarity 50. */
  function ScenarioEntry(interval: int): Vocabulary {
    Vocabulary(1, 1, 1, Some(50), Some(0), Some(250), Some(interval), None, None, None)
  }

  /** Rated "unknown" from interval 0: one day, ease 2.3, familiarity 30. */
  lemma ScenarioUnknown(now: int)
    ensures var r := Reviewed(ScenarioEntry(0), 0, now);
      r.intervalDays == Some(1) && r.easinessFactor == Some(230) && r.familiarity == Some(30)
  {
  }

  /** "known" then a correct answer from interval 1: six days, ease 2.6,
      familiarity 65. */
  lemma ScenarioKnownCorrect(now: int)
    ensures var r := Reviewed(ScenarioEntry(1), 5, now);
      r.intervalDays == Some(6) && r.easinessFactor == Some(260) && r.familiarity == Some(65)
      && r.nextReviewDate == Some(now + 6)
  {
  }

  /** "known" then a wrong answer from interval 1: back to one day, ease 2.3,
      familiarity 30. */
  lemma ScenarioKnownWrong(now: int)
    ensures var r := Reviewed(ScenarioEntry(1), 0, now);
      r.intervalDays == Some(1) && r.easinessFactor == Some(230) && r.familiarity == Some(30)
  {
  }

  /** The quality a self-rating grades with at once: "unknown" is 0, "fuzzy"
      is 1; anything else (including "known" and null) asks for a test. */
  function Grade(rating: Option<string>): (q: Option<int>)
    ensures q.Some? <==> rating == Some("unknown") || rating == Some("fuzzy")
    ensures q.Some? ==> q.value < 3
  {
    if rating == Some("unknown") then Some(0)
    else if rating == Some("fuzzy") then Some(1)
    else None
  }

  /** The quality a test answer grades with: 5 when correct, 0 when not. */
  function AnswerQuality(isCorrect: bool): (q: int)
    ensures isCorrect <==> q >= 3
  {
    if isCorrect then 5 else 0
  }

  // ---------------------------------------------------------------------------
  // The due queue

  /** Today's queue cache key, "review:queue:<user>:<date>". */
  datatype QueueKey = QueueKey(userId: int, day: int)

  /** The display form of one due entry. */
  datatype QueueItem = QueueItem(
    vocabularyId: int,
    word: string,
    phonetic: Option<string>,
    meaningCn: string,
    familiarity: Option<int>,
    reviewCount: Option<int>)

  datatype ReviewQueue = ReviewQueue(words: seq<QueueItem>, total: int)

  /** A cached string: JSON that reads back as the queue it was written from,
      or a value the reader fails to parse. */
  datatype CachedQueue = Parsable(queue: ReviewQueue) | Unparsable

  /** The queue cache (the Redis keys of the review queue). Expiry is not modelled. */
  class QueueCache {
    var entries: map<QueueKey, CachedQueue>

    constructor ()
      ensures entries == map[]
    {
      entries := map[];
    }
  }

  function Item(v: Vocabulary): QueueItem
    requires v.word.Some?
  {
    QueueItem(v.id, v.word.value.word, v.word.value.phonetic, v.word.value.meaningCn,
              v.familiarity, v.reviewCount)
  }

  /** The queue list made from the due rows, in order: the display form of
      every row that has a word. */
  function Projected(rows: seq<Vocabulary>): seq<QueueItem>
    decreases |rows|
  {
    if rows == [] then []
    else
      var last := rows[|rows| - 1];
      Projected(rows[..|rows| - 1]) + (if last.word.Some? then [Item(last)] else [])
  }

  /** The list is never longer than the rows, and exactly as long when every
      row has a word. */
  lemma {:induction false} ProjectedLength(rows: seq<Vocabulary>)
    ensures |Projected(rows)| <= |rows|
    ensures (forall v :: v in rows ==> v.word.Some?) ==> |Projected(rows)| == |rows|
    decreases |rows|
  {
    if rows != [] {
      var init := rows[..|rows| - 1];
      assert forall v :: v in init ==> v in rows;
      ProjectedLength(init);
    }
  }

  /** An item is listed exactly when some row with a word projects to it. */
  lemma {:induction false} ProjectedMembers(rows: seq<Vocabulary>, x: QueueItem)
    ensures x in Projected(rows) <==> exists v :: v in rows && v.word.Some? && x == Item(v)
    decreases |rows|
  {
    if rows != [] {
      var init := rows[..|rows| - 1];
      var last := rows[|rows| - 1];
      assert rows == init + [last];
      ProjectedMembers(init, x);
      if x in Projected(rows) && x !in Projected(init) {
        assert last.word.Some? && x == Item(last);
      }
    }
  }

  /** The queue a cache miss computes: the first 100 due rows, projected, with
      `total` the number of listed items. */
  function FreshQueue(due: seq<Vocabulary>): (q: ReviewQueue)
    ensures q.total == |q.words| <= QueueLimit
    ensures forall x :: x in q.words ==> exists v :: v in due && v.word.Some? && x == Item(v)
  {
    var rows := due[..Min(|due|, QueueLimit)];
    ProjectedLength(rows);
    forall x | x in Projected(rows)
      ensures exists v :: v in due && v.word.Some? && x == Item(v)
    {
      ProjectedMembers(rows, x);
    }
    ReviewQueue(Projected(rows), |Projected(rows)|)
  }

  /** The loop of getReviewQueue that builds the list of items. */
  method BuildQueueWords(rows: seq<Vocabulary>) returns (words: seq<QueueItem>)
    ensures words == Projected(rows)
  {
    words := [];
    var i := 0;
    while i < |rows|
      invariant 0 <= i <= |rows|
      invariant words == Projected(rows[..i])
    {
      assert rows[..i + 1][..i] == rows[..i];
      if rows[i].word.Some? {
        words := words + [Item(rows[i])];
      }
      i := i + 1;
    }
    assert rows[..|rows|] == rows;
  }

  /** The due query's rows are stored entries of this user. */
  predicate DueRowsOf(entries: map<int, Vocabulary>, userId: int, due: seq<Vocabulary>) {
    forall v :: v in due ==> v.id in entries && entries[v.id] == v && v.userId == userId
  }

  /** A readable cached queue under the key. */
  predicate CacheHit(entries: map<QueueKey, CachedQueue>, key: QueueKey) {
    key in entries && entries[key].Parsable?
  }

  // ---------------------------------------------------------------------------
  // The test question

  /** `allWords.stream().filter(id != target).map(meaningCn).distinct()`: the
      meanings of the other words, each once, in first-occurrence order. */
  function Distractors(allWords: seq<Word>, targetId: int): (d: seq<string>)
    ensures NoDuplicates(d)
    ensures forall m :: m in d <==> exists w :: w in allWords && w.id != targetId && w.meaningCn == m
    decreases |allWords|
  {
    if allWords == [] then []
    else
      var init := allWords[..|allWords| - 1];
      var w := allWords[|allWords| - 1];
      assert allWords == init + [w];
      var prev := Distractors(init, targetId);
      if w.id != targetId && w.meaningCn !in prev then prev + [w.meaningCn] else prev
  }

  /** `options` holds the correct meaning once plus `picked`, in some order,
      where `picked` is min(3, |d|) distinct distractors. */
  ghost predicate OptionsFrom(options: seq<string>, correct: string, d: seq<string>, picked: seq<string>) {
    && |picked| == Min(3, |d|)
    && NoDuplicates(picked)
    && (forall m :: m in picked ==> m in d)
    && multiset(options) == multiset{correct} + multiset(picked)
  }

  /** The question asks for the target word and offers the correct meaning
      together with up to three distinct distractors, shuffled. */
  ghost predicate IsQuestionFor(q: Question, target: Word, allWords: seq<Word>) {
    && q.word == target.word
    && q.phonetic == target.phonetic
    && q.correctAnswer == target.meaningCn
    && exists picked :: OptionsFrom(q.options, target.meaningCn, Distractors(allWords, target.id), picked)
  }

  /** The multiple-choice question (type "choice"). */
  datatype Question = Question(word: string, phonetic: Option<string>, options: seq<string>, correctAnswer: string)

  /** generateTestQuestion: shuffle the distractors, keep the first three, add
      the correct meaning, shuffle again. */
  method GenerateTestQuestion(target: Word, allWords: seq<Word>, rnd1: nat -> nat, rnd2: nat -> nat)
    returns (q: Question)
    ensures IsQuestionFor(q, target, allWords)
    ensures |q.options| == 1 + Min(3, |Distractors(allWords, target.id)|)
    ensures target.meaningCn in q.options
  {
    var all := Distractors(allWords, target.id);
    var distractors := Shuffle.Shuffled(all, rnd1);
    var picked := distractors[..Min(3, |distractors|)];
    var shuffled := Shuffle.Shuffled([target.meaningCn] + picked, rnd2);
    PickedOptions(all, distractors, target.meaningCn, shuffled);
    q := Question(target.word, target.phonetic, shuffled, target.meaningCn);
  }

  /** The first three of a permutation of the distinct distractors, together
      with the correct meaning and permuted again, are options for the question. */
  lemma PickedOptions(all: seq<string>, distractors: seq<string>, correct: string, shuffled: seq<string>)
    requires NoDuplicates(all) && multiset(distractors) == multiset(all)
    requires multiset(shuffled) == multiset([correct] + distractors[..Min(3, |distractors|)])
    ensures OptionsFrom(shuffled, correct, all, distractors[..Min(3, |distractors|)])
    ensures |shuffled| == 1 + Min(3, |all|)
    ensures correct in shuffled
  {
    assert |distractors| == |all| by {
      assert |multiset(distractors)| == |multiset(all)|;
    }
    Shuffle.PermutationKeepsDistinct(all, distractors);
    var picked := distractors[..Min(3, |distractors|)];
    forall m | m in picked
      ensures m in all
    {
      assert m in multiset(distractors);
    }
    assert multiset([correct] + picked) == multiset{correct} + multiset(picked);
    assert |multiset(shuffled)| == |[correct] + picked|;
    assert correct in multiset(shuffled);
  }

  /** When the distractors are at least three, there are four options. */
  lemma FourOptions(q: Question, target: Word, allWords: seq<Word>)
    requires IsQuestionFor(q, target, allWords)
    requires |Distractors(allWords, target.id)| >= 3
    ensures |q.options| == 4
  {
    var picked :| OptionsFrom(q.options, target.meaningCn, Distractors(allWords, target.id), picked);
    assert |multiset(q.options)| == 1 + |picked|;
  }

  /** When no other word shares the target's meaning, the correct meaning is
      offered exactly once. */
  lemma CorrectOfferedOnce(q: Question, target: Word, allWords: seq<Word>)
    requires IsQuestionFor(q, target, allWords)
    requires forall w :: w in allWords && w.id != target.id ==> w.meaningCn != target.meaningCn
    ensures multiset(q.options)[target.meaningCn] == 1
  {
    var d := Distractors(allWords, target.id);
    var picked :| OptionsFrom(q.options, target.meaningCn, d, picked);
    assert target.meaningCn !in d;
    assert target.meaningCn !in picked;
  }

  /** Distractors are not filtered against the target's meaning: when another
      word has the same meaning, the correct meaning is offered twice. */
  lemma CorrectOfferedTwice(q: Question)
    requires IsQuestionFor(q, Word(1, "big", None, "da"), [Word(1, "big", None, "da"), Word(2, "large", None, "da")])
    ensures q.options == ["da", "da"]
  {
    var allWords := [Word(1, "big", None, "da"), Word(2, "large", None, "da")];
    var d := Distractors(allWords, 1);
    assert allWords[..1] == [Word(1, "big", None, "da")];
    assert Distractors(allWords[..1], 1) == [];
    assert d == ["da"];
    var picked :| OptionsFrom(q.options, "da", d, picked);
    assert |picked| == 1 && picked[0] in d;
    assert multiset(q.options) == multiset{"da", "da"};
    assert |q.options| == 2;
    assert q.options[0] in multiset(q.options) && q.options[1] in multiset(q.options);
  }

  // ---------------------------------------------------------------------------
  // The orchestrator

  /** Outcome of a self-rating: the answer revealed at once, or a question. */
  datatype RatingOutcome = Revealed(correctAnswer: string, word: string) | NeedTest(question: Question)

  /** Outcome of a test answer; the schedule fields are present only when the
      answer moved the schedule. */
  datatype AnswerOutcome = AnswerOutcome(
    isCorrect: bool,
    correctAnswer: string,
    nextReviewDate: Option<int>,
    newFamiliarity: Option<int>)

  /** The record with its test outcome filled in. */
  function Tested(rec: ReviewRecord, passed: bool, responseTimeMs: Option<int>): ReviewRecord {
    rec.(testPassed := Some(passed), responseTimeMs := responseTimeMs)
  }

  /** `found` is what `findByUserIdAndVocabularyId` returns: the positions of
      exactly the records of this user and entry, in an order the mapper picks. */
  predicate ListsRecordsOf(found: seq<nat>, rows: seq<ReviewRecord>, userId: int, vocabularyId: int) {
    && (forall i :: 0 <= i < |found| ==> found[i] < |rows|)
    && (forall k :: 0 <= k < |rows| ==>
          (k in found <==> rows[k].userId == userId && rows[k].vocabularyId == vocabularyId))
  }

  class ReviewService {
    const vocabularyMapper: VocabularyTable
    const wordMapper: WordTable
    const reviewRecordMapper: ReviewRecordTable
    const cache: QueueCache

    constructor (vocabularyMapper: VocabularyTable, wordMapper: WordTable,
                 reviewRecordMapper: ReviewRecordTable, cache: QueueCache)
      ensures this.vocabularyMapper == vocabularyMapper && this.wordMapper == wordMapper
      ensures this.reviewRecordMapper == reviewRecordMapper && this.cache == cache
    {
      this.vocabularyMapper := vocabularyMapper;
      this.wordMapper := wordMapper;
      this.reviewRecordMapper := reviewRecordMapper;
      this.cache := cache;
    }

    ghost predicate Valid()
      reads this, vocabularyMapper
    {
      vocabularyMapper.Valid()
    }

    /** getReviewQueue: a readable cached queue is returned verbatim; otherwise
        the queue is rebuilt from the due rows and cached only when non-empty.
        `writeSucceeds` says whether the cache write goes through; a failed
        write is ignored and the fresh queue is still returned. */
    method GetReviewQueue(userId: int, today: int, due: seq<Vocabulary>, writeSucceeds: bool)
      returns (r: ReviewQueue)
      requires DueRowsOf(vocabularyMapper.entries, userId, due)
      modifies cache
      ensures var key := QueueKey(userId, today);
        CacheHit(old(cache.entries), key) ==>
          r == old(cache.entries)[key].queue && cache.entries == old(cache.entries)
      ensures var key := QueueKey(userId, today);
        !CacheHit(old(cache.entries), key) ==>
          && r == FreshQueue(due)
          && cache.entries == (if r.words == [] || !writeSucceeds then old(cache.entries)
                               else old(cache.entries)[key := Parsable(r)])
    {
      var key := QueueKey(userId, today);
      if key in cache.entries && cache.entries[key].Parsable? {
        return cache.entries[key].queue;
      }
      var rows := due[..Min(|due|, QueueLimit)];
      var words := BuildQueueWords(rows);
      ProjectedLength(rows);
      r := ReviewQueue(words, |words|);
      if words != [] && writeSucceeds {
        cache.entries := cache.entries[key := Parsable(r)];
      }
    }

    /** The stored entry after a graded review (applySM2). */
    method ApplySM2(v: Vocabulary, quality: int, now: int)
      requires Valid() && v.id in vocabularyMapper.entries && vocabularyMapper.entries[v.id] == v
      modifies vocabularyMapper
      ensures Valid()
      ensures vocabularyMapper.entries == old(vocabularyMapper.entries)[v.id := Reviewed(v, quality, now)]
      ensures vocabularyMapper.nextId == old(vocabularyMapper.nextId)
    {
      vocabularyMapper.entries := vocabularyMapper.entries[v.id := Reviewed(v, quality, now)];
      assert forall a, b :: SameWordTwice(vocabularyMapper.entries, a, b) ==>
        SameWordTwice(old(vocabularyMapper.entries), a, b);
    }

    /** submitRating: reject an entry that is absent or not the user's; log the
        raw rating; grade "unknown" and "fuzzy" at once, or hand back a question
        for anything else; invalidate today's queue. */
    method SubmitRating(userId: int, vocabularyId: int, rating: Option<string>, now: int, today: int,
                        rnd1: nat -> nat, rnd2: nat -> nat)
      returns (r: Result<RatingOutcome>)
      requires Valid()
      modifies vocabularyMapper, reviewRecordMapper, cache
      ensures Valid()
      ensures !Owns(old(vocabularyMapper.entries), userId, vocabularyId) ==>
        r == Err(RecordNotFound) && unchanged(vocabularyMapper, reviewRecordMapper, cache)
      ensures Owns(old(vocabularyMapper.entries), userId, vocabularyId) ==>
        var v := old(vocabularyMapper.entries)[vocabularyId];
        && reviewRecordMapper.rows == old(reviewRecordMapper.rows) + [ReviewRecord(userId, vocabularyId, rating, None, None)]
        && vocabularyMapper.nextId == old(vocabularyMapper.nextId)
        && vocabularyMapper.entries == (if Grade(rating).Some?
                                        then old(vocabularyMapper.entries)[vocabularyId := Reviewed(v, Grade(rating).value, now)]
                                        else old(vocabularyMapper.entries))
        && (v.word.None? ==> r == Err(InternalError) && cache.entries == old(cache.entries))
        && (v.word.Some? ==> cache.entries == old(cache.entries) - {QueueKey(userId, today)})
        && (v.word.Some? && Grade(rating).Some? ==> r == Ok(Revealed(v.word.value.meaningCn, v.word.value.word)))
        && (v.word.Some? && Grade(rating).None? ==>
              r.Ok? && r.value.NeedTest? && IsQuestionFor(r.value.question, v.word.value, wordMapper.rows))
    {
      if !(vocabularyId in vocabularyMapper.entries && vocabularyMapper.entries[vocabularyId].userId == userId) {
        return Err(RecordNotFound);
      }
      var v := vocabularyMapper.entries[vocabularyId];
      reviewRecordMapper.rows := reviewRecordMapper.rows + [ReviewRecord(userId, vocabularyId, rating, None, None)];
      var outcome: RatingOutcome;
      if rating == Some("unknown") || rating == Some("fuzzy") {
        var quality := if rating == Some("unknown") then 0 else 1;
        ApplySM2(v, quality, now);
        if v.word.None? {
          return Err(InternalError);
        }
        outcome := Revealed(v.word.value.meaningCn, v.word.value.word);
      } else {
        if v.word.None? {
          return Err(InternalError);
        }
        var question := GenerateTestQuestion(v.word.value, wordMapper.rows, rnd1, rnd2);
        outcome := NeedTest(question);
      }
      cache.entries := cache.entries - {QueueKey(userId, today)};
      r := Ok(outcome);
    }

    /** submitAnswer: reject an entry that is absent or not the user's; judge
        the answer by exact equality with the meaning; outside the error queue
        grade with 5 or 0 and invalidate today's queue; in both cases record
        the outcome on the first record the mapper returns. */
    method SubmitAnswer(userId: int, vocabularyId: int, answer: Option<string>, isFromErrorQueue: bool,
                        responseTimeMs: Option<int>, now: int, today: int, found: seq<nat>)
      returns (r: Result<AnswerOutcome>)
      requires Valid()
      requires ListsRecordsOf(found, reviewRecordMapper.rows, userId, vocabularyId)
      modifies vocabularyMapper, reviewRecordMapper, cache
      ensures Valid()
      ensures !Owns(old(vocabularyMapper.entries), userId, vocabularyId) ==>
        r == Err(RecordNotFound) && unchanged(vocabularyMapper, reviewRecordMapper, cache)
      ensures (Owns(old(vocabularyMapper.entries), userId, vocabularyId)
               && old(vocabularyMapper.entries)[vocabularyId].word.None?) ==>
        r == Err(InternalError) && unchanged(vocabularyMapper, reviewRecordMapper, cache)
      ensures (Owns(old(vocabularyMapper.entries), userId, vocabularyId)
               && old(vocabularyMapper.entries)[vocabularyId].word.Some?) ==>
        var v := old(vocabularyMapper.entries)[vocabularyId];
        var correct := v.word.value.meaningCn;
        var isCorrect := answer == Some(correct);
        var after := Reviewed(v, AnswerQuality(isCorrect), now);
        && vocabularyMapper.nextId == old(vocabularyMapper.nextId)
        && reviewRecordMapper.rows == (if found == [] then old(reviewRecordMapper.rows)
                                       else old(reviewRecordMapper.rows)[found[0] := Tested(old(reviewRecordMapper.rows)[found[0]], isCorrect, responseTimeMs)])
        && (isFromErrorQueue ==>
              && vocabularyMapper.entries == old(vocabularyMapper.entries)
              && cache.entries == old(cache.entries)
              && r == Ok(AnswerOutcome(isCorrect, correct, None, None)))
        && (!isFromErrorQueue ==>
              && vocabularyMapper.entries == old(vocabularyMapper.entries)[vocabularyId := after]
              && cache.entries == old(cache.entries) - {QueueKey(userId, today)}
              && r == Ok(AnswerOutcome(isCorrect, correct, after.nextReviewDate, after.familiarity)))
    {
      if !(vocabularyId in vocabularyMapper.entries && vocabularyMapper.entries[vocabularyId].userId == userId) {
        return Err(RecordNotFound);
      }
      var v := vocabularyMapper.entries[vocabularyId];
      if v.word.None? {
        return Err(InternalError);
      }
      var correct := v.word.value.meaningCn;
      var isCorrect := answer == Some(correct);
      var outcome := AnswerOutcome(isCorrect, correct, None, None);
      if !isFromErrorQueue {
        ApplySM2(v, if isCorrect then 5 else 0, now);
        var after := vocabularyMapper.entries[vocabularyId];
        outcome := outcome.(nextReviewDate := after.nextReviewDate, newFamiliarity := after.familiarity);
      }
      if found != [] {
        var k := found[0];
        reviewRecordMapper.rows := reviewRecordMapper.rows[k := Tested(reviewRecordMapper.rows[k], isCorrect, responseTimeMs)];
      }
      if !isFromErrorQueue {
        cache.entries := cache.entries - {QueueKey(userId, today)};
      }
      r := Ok(outcome);
    }
  }
}
