/** The learning orchestrator (LearningService): the per-user learning-state
    cache, the input checks and session creation of article generation, and the
    sentence submission that keeps only the best-scoring sentence per user and
    word. The AI service is a function passed in by the caller. */
module LearningService {
  import opened Common
  import opened Entities
  import opened Tables

  /** "At least one word" / "the words do not exist" (article generation). */
  const NoWords := 2010
  /** The AI service failed or answered with an error. */
  const AiUnavailable := 2011
  /** The vocabulary entry (or its word) does not exist. */
  const EntryNotFound := 2003
  /** The sentence is null or blank. */
  const BlankSentence := 2020
  /** The sentence does not contain the target word. */
  const WordMissing := 2021

  // ---------------------------------------------------------------------------
  // Text checks

  /** `String.trim` drops leading and trailing characters up to U+0020. */
  predicate Trimmable(c: char) {
    c <= ' '
  }

  function TrimLeft(s: string): (r: string)
    ensures |r| <= |s| && r == s[|s| - |r|..]
    ensures r == [] || !Trimmable(r[0])
    ensures forall i :: 0 <= i < |s| - |r| ==> Trimmable(s[i])
    decreases |s|
  {
    if s == [] || !Trimmable(s[0]) then s else TrimLeft(s[1..])
  }

  function TrimRight(s: string): (r: string)
    ensures |r| <= |s| && r == s[..|r|]
    ensures r == [] || !Trimmable(r[|r| - 1])
    ensures forall i :: |r| <= i < |s| ==> Trimmable(s[i])
    decreases |s|
  {
    if s == [] || !Trimmable(s[|s| - 1]) then s else TrimRight(s[..|s| - 1])
  }

  function Trim(s: string): string {
    TrimRight(TrimLeft(s))
  }

  /** A sentence trims to nothing exactly when every character is trimmable. */
  lemma TrimEmptyIffBlank(s: string)
    ensures Trim(s) == [] <==> forall i :: 0 <= i < |s| ==> Trimmable(s[i])
  {
    var l := TrimLeft(s);
    if Trim(s) == [] {
      assert l == [];
    }
    if forall i :: 0 <= i < |s| ==> Trimmable(s[i]) {
      if l != [] {
        assert l[0] == s[|s| - |l|];
      }
    }
  }

  /** `sentence == null || sentence.trim().isEmpty()`. */
  predicate Blank(sentence: Option<string>) {
    sentence.None? || Trim(sentence.value) == []
  }

  /** An ASCII upper-case letter. */
  predicate IsUpper(c: char) {
    'A' <= c <= 'Z'
  }

  /** Lower-casing of one character; only the ASCII letters are mapped. */
  function LowerChar(c: char): char {
    if IsUpper(c) then (c as int + 32) as char else c
  }

  /** `toLowerCase`: the same length, no upper-case letter left, and every
      character that was not an upper-case letter kept where it was. */
  function Lower(s: string): (r: string)
    ensures |r| == |s|
    ensures forall i :: 0 <= i < |r| ==> !IsUpper(r[i])
    ensures forall i :: 0 <= i < |s| && !IsUpper(s[i]) ==> r[i] == s[i]
  {
    seq(|s|, i requires 0 <= i < |s| => LowerChar(s[i]))
  }

  /** Lower-casing twice is lower-casing once. */
  lemma LowerIdempotent(s: string)
    ensures Lower(Lower(s)) == Lower(s)
  {
  }

  /** `t` occurs in `s` starting at position `i`. */
  predicate OccursAt(s: string, t: string, i: int) {
    0 <= i && i + |t| <= |s| && s[i..i + |t|] == t
  }

  /** `s.contains(t)`. */
  predicate Contains(s: string, t: string) {
    exists i :: 0 <= i <= |s| && OccursAt(s, t, i)
  }

  /** `sentence.toLowerCase().contains(targetWord.toLowerCase())`. */
  predicate Mentions(sentence: string, target: string) {
    Contains(Lower(sentence), Lower(target))
  }

  /** A sentence containing the word verbatim passes the check, whatever the case. */
  lemma VerbatimMentions(sentence: string, target: string)
    requires Contains(sentence, target)
    ensures Mentions(sentence, target)
  {
    var i :| 0 <= i <= |sentence| && OccursAt(sentence, target, i);
    assert Lower(sentence)[i..i + |target|] == Lower(target);
    assert OccursAt(Lower(sentence), Lower(target), i);
  }

  /** Only letter case is ignored: "I like Apples" mentions "apple". */
  lemma CaseIgnored()
    ensures Mentions("I like Apples", "apple")
  {
    assert Lower("I like Apples")[7..12] == "apple";
    assert OccursAt(Lower("I like Apples"), Lower("apple"), 7);
  }

  // ---------------------------------------------------------------------------
  // The learning-state cache

  /** A cached state string: JSON that reads back as a map, or one that does not. */
  datatype CachedState = StateJson(state: map<string, string>) | Malformed

  /** What `objectMapper.writeValueAsString(state)` stores. */
  function Written(state: map<string, string>): CachedState {
    StateJson(state)
  }

  /** What `objectMapper.readValue` gives back: the state, or a parse failure. */
  function Parsed(c: CachedState): Option<map<string, string>> {
    if c.StateJson? then Some(c.state) else None
  }


  /** The "learning:study:<user>" keys. Expiry after one hour is not modelled. */
  class StateCache {
    var entries: map<int, CachedState>

    constructor ()
      ensures entries == map[]
    {
      entries := map[];
    }

    /** saveLearningState: a failed write leaves the cache as it was and is
        not reported. */
    method Save(userId: int, state: map<string, string>, writeSucceeds: bool)
      modifies this
      ensures entries == if writeSucceeds then old(entries)[userId := Written(state)] else old(entries)
    {
      if writeSucceeds {
        entries := entries[userId := Written(state)];
      }
    }

    /** getLearningState: the parsed state, or null; a value that does not
        parse is deleted. */
    method Get(userId: int) returns (r: Option<map<string, string>>)
      modifies this
      ensures userId !in old(entries) ==> r.None? && entries == old(entries)
      ensures userId in old(entries) ==> r == Parsed(old(entries)[userId])
      ensures entries == if userId in old(entries) && r.None? then old(entries) - {userId} else old(entries)
    {
      if userId in entries {
        r := Parsed(entries[userId]);
        if r.None? {
          entries := entries - {userId};
        }
      } else {
        r := None;
      }
    }

    /** A successful save read back at once returns the saved state and keeps
        it cached. */
    method SaveThenGet(userId: int, state: map<string, string>) returns (r: Option<map<string, string>>)
      modifies this
      ensures r == Some(state)
      ensures entries == old(entries)[userId := Written(state)]
    {
      Save(userId, state, true);
      r := Get(userId);
    }

    /** clearLearningState: the key is deleted. */
    method Clear(userId: int)
      modifies this
      ensures entries == old(entries) - {userId}
      ensures userId !in entries
    {
      entries := entries - {userId};
    }
  }

  // ---------------------------------------------------------------------------
  // Article generation

  /** One word of the article request. */
  datatype WordPair = WordPair(word: string, meaningCn: string)

  /** The body posted to the article endpoint. */
  datatype ArticleRequest = ArticleRequest(
    words: seq<WordPair>,
    difficulty: string,
    length: string,
    theme: Option<string>)

  /** The article endpoint's answer: code 200 with the article, or anything else. */
  datatype ArticleReply = ArticleOk(article: string) | ArticleError

  datatype ArticleOutcome = ArticleOutcome(sessionId: int, article: string)

  function Pair(v: Vocabulary): WordPair
    requires v.word.Some?
  {
    WordPair(v.word.value.word, v.word.value.meaningCn)
  }

  /** The request words: the word and meaning of every listed entry that has a
      word, in list order. */
  function RequestWords(listed: seq<Vocabulary>): (r: seq<WordPair>)
    ensures |r| <= |listed|
    decreases |listed|
  {
    if listed == [] then []
    else
      var last := listed[|listed| - 1];
      RequestWords(listed[..|listed| - 1]) + (if last.word.Some? then [Pair(last)] else [])
  }

  /** A pair is requested exactly when some listed entry with a word gives it. */
  lemma {:induction false} RequestWordsMembers(listed: seq<Vocabulary>, p: WordPair)
    ensures p in RequestWords(listed) <==> exists v :: v in listed && v.word.Some? && p == Pair(v)
    decreases |listed|
  {
    if listed != [] {
      var init := listed[..|listed| - 1];
      var last := listed[|listed| - 1];
      assert listed == init + [last];
      RequestWordsMembers(init, p);
      if p in RequestWords(listed) && p !in RequestWords(init) {
        assert last.word.Some? && p == Pair(last);
      }
    }
  }

  /** The loop of generateArticle that assembles the word list. */
  method CollectWords(listed: seq<Vocabulary>) returns (words: seq<WordPair>)
    ensures words == RequestWords(listed)
  {
    words := [];
    var i := 0;
    while i < |listed|
      invariant 0 <= i <= |listed|
      invariant words == RequestWords(listed[..i])
    {
      assert listed[..i + 1][..i] == listed[..i];
      if listed[i].word.Some? {
        words := words + [Pair(listed[i])];
      }
      i := i + 1;
    }
    assert listed[..|listed|] == listed;
  }

  /** The request body: difficulty defaults to "medium", length to "short", and
      the theme is sent only when non-empty. */
  function RequestFor(words: seq<WordPair>, difficulty: Option<string>, length: Option<string>,
                      theme: Option<string>): ArticleRequest
  {
    ArticleRequest(words, OrElse(difficulty, "medium"), OrElse(length, "short"),
                   if NonEmpty(theme) then theme else None)
  }

  /** Nothing chosen asks for a short article of medium difficulty without a
      theme (an empty theme counts as none); choices made are sent as made. */
  lemma RequestForChoices(words: seq<WordPair>, difficulty: string, length: string, theme: string)
    ensures RequestFor(words, None, None, None) == ArticleRequest(words, "medium", "short", None)
    ensures RequestFor(words, None, None, Some("")) == RequestFor(words, None, None, None)
    ensures theme != "" ==>
      RequestFor(words, Some(difficulty), Some(length), Some(theme))
        == ArticleRequest(words, difficulty, length, Some(theme))
  {
  }

  /** A request fed back into the builder comes out unchanged: the defaults
      and the theme filter settle it in one application. */
  lemma RequestForSettles(words: seq<WordPair>, difficulty: Option<string>, length: Option<string>,
                          theme: Option<string>)
    ensures var q := RequestFor(words, difficulty, length, theme);
      RequestFor(q.words, Some(q.difficulty), Some(q.length), q.theme) == q
  {
  }

  /** `getVocabularyByIds(ids)`: the stored entries whose ids are requested,
      in an order the mapper picks; ownership is not checked. */
  predicate ListsEntries(listed: seq<Vocabulary>, entries: map<int, Vocabulary>, ids: seq<int>) {
    && (forall v :: v in listed ==> v.id in ids && v.id in entries && entries[v.id] == v)
    && (forall id :: id in ids && id in entries ==> entries[id] in listed)
  }

  // ---------------------------------------------------------------------------
  // Sentence submission

  /** The evaluation endpoint's answer: code 200 with a score and feedback, or
      anything else. */
  datatype EvalReply = EvalOk(score: int, feedback: string) | EvalError

  /** The result of a submitted sentence. */
  datatype SentenceOutcome = SentenceOutcome(score: int, replaced: bool, previousScore: Option<int>)

  /** The store after offering a new sentence record: kept when there is none
      for the key or when its score is at least the stored one (ties replace);
      every other key is untouched. */
  function KeepBest(best: map<SentenceKey, SessionWord>, key: SentenceKey, offer: SessionWord)
    : (r: map<SentenceKey, SessionWord>)
    ensures key in r
    ensures key !in best || offer.score >= best[key].score ==> r[key] == offer
    ensures key in best && offer.score < best[key].score ==> r[key] == best[key]
    ensures r[key].score == if key in best then Max(best[key].score, offer.score) else offer.score
    ensures forall k :: k != key ==> (k in r <==> k in best)
    ensures forall k :: k != key && k in best ==> r[k] == best[k]
  {
    if key !in best || offer.score >= best[key].score then best[key := offer] else best
  }

  /** The highest score in a non-empty list of records. */
  function MaxScore(records: seq<SessionWord>): int
    requires records != []
    decreases |records|
  {
    if |records| == 1 then records[0].score
    else Max(records[0].score, MaxScore(records[1..]))
  }

  /** The store after offering the records one after another. */
  function KeepBestAll(best: map<SentenceKey, SessionWord>, key: SentenceKey, offered: seq<SessionWord>)
    : map<SentenceKey, SessionWord>
    decreases |offered|
  {
    if offered == [] then best else KeepBestAll(KeepBest(best, key, offered[0]), key, offered[1..])
  }

  /** After a series of submissions the stored score is the best of all of
      them and of the score stored before. */
  lemma {:induction false} BestOfAll(best: map<SentenceKey, SessionWord>, key: SentenceKey, offered: seq<SessionWord>)
    requires offered != []
    ensures key in KeepBestAll(best, key, offered)
    ensures KeepBestAll(best, key, offered)[key].score
      == if key in best then Max(best[key].score, MaxScore(offered)) else MaxScore(offered)
    decreases |offered|
  {
    if |offered| > 1 {
      BestOfAll(KeepBest(best, key, offered[0]), key, offered[1..]);
    }
  }

  class LearningService {
    const vocabularyMapper: VocabularyTable
    const sessionWordMapper: SentenceTable
    const learningSessionMapper: SessionTable
    const stateCache: StateCache

    constructor (vocabularyMapper: VocabularyTable, sessionWordMapper: SentenceTable,
                 learningSessionMapper: SessionTable, stateCache: StateCache)
      ensures this.vocabularyMapper == vocabularyMapper && this.sessionWordMapper == sessionWordMapper
      ensures this.learningSessionMapper == learningSessionMapper && this.stateCache == stateCache
    {
      this.vocabularyMapper := vocabularyMapper;
      this.sessionWordMapper := sessionWordMapper;
      this.learningSessionMapper := learningSessionMapper;
      this.stateCache := stateCache;
    }

    /** generateArticle: at least one id, at least one stored entry among them,
        then the AI request; on success a session of type "article" is stored
        with the requested (not the found) word count and the raw difficulty
        and theme. */
    method GenerateArticle(userId: int, vocabularyIds: seq<int>, listed: seq<Vocabulary>,
                           difficulty: Option<string>, length: Option<string>, theme: Option<string>,
                           ai: ArticleRequest -> ArticleReply)
      returns (r: Result<ArticleOutcome>)
      requires ListsEntries(listed, vocabularyMapper.entries, vocabularyIds)
      modifies learningSessionMapper
      ensures |vocabularyIds| < 1 || listed == [] ==>
        r == Err(NoWords) && learningSessionMapper.rows == old(learningSessionMapper.rows)
      ensures |vocabularyIds| >= 1 && listed != [] ==>
        var reply := ai(RequestFor(RequestWords(listed), difficulty, length, theme));
        var id := |old(learningSessionMapper.rows)| + 1;
        && (reply.ArticleError? ==>
              r == Err(AiUnavailable) && learningSessionMapper.rows == old(learningSessionMapper.rows))
        && (reply.ArticleOk? ==>
              && r == Ok(ArticleOutcome(id, reply.article))
              && learningSessionMapper.rows == old(learningSessionMapper.rows)
                   + [LearningSession(id, userId, "article", reply.article, theme, difficulty, |vocabularyIds|)])
    {
      if |vocabularyIds| < 1 {
        return Err(NoWords);
      }
      if listed == [] {
        return Err(NoWords);
      }
      var words := CollectWords(listed);
      var reply := ai(RequestFor(words, difficulty, length, theme));
      if reply.ArticleError? {
        return Err(AiUnavailable);
      }
      var id := |learningSessionMapper.rows| + 1;
      learningSessionMapper.rows := learningSessionMapper.rows
        + [LearningSession(id, userId, "article", reply.article, theme, difficulty, |vocabularyIds|)];
      r := Ok(ArticleOutcome(id, reply.article));
    }

    /** submitSentence: blank, then unknown entry, then the containment check,
        each before the AI is consulted; a successful evaluation keeps the
        better of the stored and the new sentence for (user, word). */
    method SubmitSentence(userId: int, sessionId: int, vocabularyId: int, sentence: Option<string>,
                          evaluate: (string, string, string) -> EvalReply)
      returns (r: Result<SentenceOutcome>)
      modifies sessionWordMapper
      ensures Blank(sentence) ==>
        r == Err(BlankSentence) && sessionWordMapper.best == old(sessionWordMapper.best)
      ensures !Blank(sentence) && !(vocabularyId in vocabularyMapper.entries
                                    && vocabularyMapper.entries[vocabularyId].word.Some?) ==>
        r == Err(EntryNotFound) && sessionWordMapper.best == old(sessionWordMapper.best)
      ensures (!Blank(sentence) && vocabularyId in vocabularyMapper.entries
               && vocabularyMapper.entries[vocabularyId].word.Some?) ==>
        var w := vocabularyMapper.entries[vocabularyId].word.value;
        var key := SentenceKey(userId, w.id);
        var reply := evaluate(w.word, w.meaningCn, sentence.value);
        && (!Mentions(sentence.value, w.word) ==>
              r == Err(WordMissing) && sessionWordMapper.best == old(sessionWordMapper.best))
        && (Mentions(sentence.value, w.word) && reply.EvalError? ==>
              r == Err(AiUnavailable) && sessionWordMapper.best == old(sessionWordMapper.best))
        && (Mentions(sentence.value, w.word) && reply.EvalOk? ==>
              var offer := SessionWord(sessionId, vocabularyId, sentence.value, reply.feedback, reply.score);
              var prior := old(sessionWordMapper.best);
              && sessionWordMapper.best == KeepBest(prior, key, offer)
              && r.Ok? && r.value.score == reply.score
              && r.value.replaced == (key in prior && reply.score >= prior[key].score)
              && r.value.previousScore == (if key in prior then Some(prior[key].score) else None))
    {
      if sentence.None? || Trim(sentence.value) == [] {
        return Err(BlankSentence);
      }
      if !(vocabularyId in vocabularyMapper.entries && vocabularyMapper.entries[vocabularyId].word.Some?) {
        return Err(EntryNotFound);
      }
      var w := vocabularyMapper.entries[vocabularyId].word.value;
      if !Contains(Lower(sentence.value), Lower(w.word)) {
        return Err(WordMissing);
      }
      var reply := evaluate(w.word, w.meaningCn, sentence.value);
      if reply.EvalError? {
        return Err(AiUnavailable);
      }
      var key := SentenceKey(userId, w.id);
      var offer := SessionWord(sessionId, vocabularyId, sentence.value, reply.feedback, reply.score);
      var outcome := StoreBest(key, offer);
      r := Ok(outcome);
    }

    /** The keep-the-best write of submitSentence: an existing record with a
        lower or equal score is deleted and the new one inserted; a better
        existing record stays. */
    method StoreBest(key: SentenceKey, offer: SessionWord) returns (outcome: SentenceOutcome)
      modifies sessionWordMapper
      ensures sessionWordMapper.best == KeepBest(old(sessionWordMapper.best), key, offer)
      ensures var prior := old(sessionWordMapper.best);
        outcome == SentenceOutcome(offer.score, key in prior && offer.score >= prior[key].score,
                                   if key in prior then Some(prior[key].score) else None)
    {
      if key in sessionWordMapper.best {
        var existing := sessionWordMapper.best[key];
        if offer.score >= existing.score {
          assert (sessionWordMapper.best - {key})[key := offer] == sessionWordMapper.best[key := offer];
          sessionWordMapper.best := (sessionWordMapper.best - {key})[key := offer];
          outcome := SentenceOutcome(offer.score, true, Some(existing.score));
        } else {
          outcome := SentenceOutcome(offer.score, false, Some(existing.score));
        }
      } else {
        sessionWordMapper.best := sessionWordMapper.best[key := offer];
        outcome := SentenceOutcome(offer.score, false, None);
      }
    }

    /** clearLearningState, as far as the cache is concerned. */
    method ClearLearningState(userId: int)
      modifies stateCache
      ensures stateCache.entries == old(stateCache.entries) - {userId}
    {
      stateCache.Clear(userId);
    }
  }
}
