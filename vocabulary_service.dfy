/** The vocabulary book (VocabularyService): adding a catalog word, the batch
    add-or-get, paging offsets, and removal. */
module VocabularyService {
  import opened Common
  import opened Entities
  import opened Tables

  /** An entry for this user and word already exists. */
  const AlreadyAdded := 2001
  /** The catalog word does not exist. */
  const WordNotFound := 2002
  /** No entry of this user has this id. */
  const EntryNotFound := 2003

  /** A new entry as the service builds it: familiarity 0 and every scheduling
      field left null; the id is the table's next auto-increment value. */
  function NewEntry(id: int, userId: int, w: Word): Vocabulary {
    Vocabulary(id, userId, w.id, Some(0), None, None, None, None, None, Some(w))
  }

  /** The vocabulary table as a value, for reasoning about a sequence of inserts. */
  datatype Store = Store(entries: map<int, Vocabulary>, nextId: int)

  /** One step of the batch loop: insert an entry when the catalog has the word
      and the user does not have it yet. */
  function Step(st: Store, userId: int, wordId: int, words: seq<Word>): (r: Store)
    ensures r.nextId >= st.nextId
  {
    var w := FindWord(words, wordId);
    if w.Some? && !HasEntry(st.entries, userId, wordId) then
      Store(st.entries[st.nextId := NewEntry(st.nextId, userId, w.value)], st.nextId + 1)
    else st
  }

  /** The store after the batch loop over `wordIds`, in order. */
  function Batch(st: Store, userId: int, wordIds: seq<int>, words: seq<Word>): Store
    decreases |wordIds|
  {
    if wordIds == [] then st
    else Step(Batch(st, userId, wordIds[..|wordIds| - 1], words), userId, wordIds[|wordIds| - 1], words)
  }

  /** A step keeps the table's invariants. */
  lemma StepValid(st: Store, userId: int, wordId: int, words: seq<Word>)
    requires ValidEntries(st.entries, st.nextId)
    ensures ValidEntries(Step(st, userId, wordId, words).entries, Step(st, userId, wordId, words).nextId)
  {
    var r := Step(st, userId, wordId, words);
    if r != st {
      forall a, b | SameWordTwice(r.entries, a, b)
        ensures a == b
      {
        if a != st.nextId && b != st.nextId {
          assert SameWordTwice(st.entries, a, b);
        }
      }
    }
  }

  /** The batch keeps the table's invariants and every entry already stored,
      and whatever it adds belongs to the user, is for a requested word, and
      starts at familiarity 0. */
  lemma {:induction false} BatchKeeps(st: Store, userId: int, wordIds: seq<int>, words: seq<Word>)
    requires ValidEntries(st.entries, st.nextId)
    ensures var r := Batch(st, userId, wordIds, words);
      && ValidEntries(r.entries, r.nextId)
      && r.nextId >= st.nextId
      && (forall id :: id in st.entries ==> id in r.entries && r.entries[id] == st.entries[id])
      && (forall id :: id in r.entries && id !in st.entries ==>
            r.entries[id].userId == userId && r.entries[id].wordId in wordIds
            && r.entries[id].familiarity == Some(0))
    decreases |wordIds|
  {
    if wordIds != [] {
      var init := wordIds[..|wordIds| - 1];
      BatchKeeps(st, userId, init, words);
      StepValid(Batch(st, userId, init, words), userId, wordIds[|wordIds| - 1], words);
      assert forall x :: x in init ==> x in wordIds;
    }
  }

  /** After the batch the user has an entry for every requested word the
      catalog knows. */
  lemma {:induction false} BatchCovers(st: Store, userId: int, wordIds: seq<int>, words: seq<Word>)
    requires ValidEntries(st.entries, st.nextId)
    ensures forall wid :: wid in wordIds && WordExists(words, wid) ==>
      HasEntry(Batch(st, userId, wordIds, words).entries, userId, wid)
    decreases |wordIds|
  {
    if wordIds != [] {
      var init := wordIds[..|wordIds| - 1];
      var last := wordIds[|wordIds| - 1];
      var before := Batch(st, userId, init, words);
      BatchCovers(st, userId, init, words);
      BatchKeeps(st, userId, init, words);
      StepKeepsEntries(before, userId, last, words);
      forall wid | wid in wordIds && WordExists(words, wid)
        ensures HasEntry(Batch(st, userId, wordIds, words).entries, userId, wid)
      {
        if wid == last {
          if !HasEntry(before.entries, userId, wid) {
            assert Step(before, userId, last, words).entries[before.nextId].wordId == wid;
          }
        } else {
          assert wid in init by {
            assert wordIds == init + [last];
          }
        }
      }
    }
  }

  /** A step never loses an entry. */
  lemma StepKeepsEntries(st: Store, userId: int, wordId: int, words: seq<Word>)
    requires ValidEntries(st.entries, st.nextId)
    ensures forall u, wid :: HasEntry(st.entries, u, wid) ==> HasEntry(Step(st, userId, wordId, words).entries, u, wid)
  {
    var r := Step(st, userId, wordId, words);
    forall u, wid | HasEntry(st.entries, u, wid)
      ensures HasEntry(r.entries, u, wid)
    {
      var id :| id in st.entries && st.entries[id].userId == u && st.entries[id].wordId == wid;
      if r != st {
        assert id < st.nextId;
        assert r.entries[id] == st.entries[id];
      }
    }
  }

  /** When every requested word is already in the book or missing from the
      catalog, the batch inserts nothing. */
  lemma {:induction false} BatchNothingNew(st: Store, userId: int, wordIds: seq<int>, words: seq<Word>)
    requires forall wid :: wid in wordIds ==> !WordExists(words, wid) || HasEntry(st.entries, userId, wid)
    ensures Batch(st, userId, wordIds, words) == st
    decreases |wordIds|
  {
    if wordIds != [] {
      var init := wordIds[..|wordIds| - 1];
      assert forall x :: x in init ==> x in wordIds;
      BatchNothingNew(st, userId, init, words);
    }
  }

  /** Running the batch twice is the same as running it once. */
  lemma BatchIdempotent(st: Store, userId: int, wordIds: seq<int>, words: seq<Word>)
    requires ValidEntries(st.entries, st.nextId)
    ensures var once := Batch(st, userId, wordIds, words);
      Batch(once, userId, wordIds, words) == once
  {
    var once := Batch(st, userId, wordIds, words);
    BatchCovers(st, userId, wordIds, words);
    BatchNothingNew(once, userId, wordIds, words);
  }

  /** offset = (page - 1) * pageSize. */
  function Offset(page: int, pageSize: int): int {
    (page - 1) * pageSize
  }

  /** One page of the user's listed entries (`LIMIT pageSize OFFSET offset`);
      a negative offset or size is a statement the database rejects. */
  function PageOf<T>(rows: seq<T>, page: int, pageSize: int): (r: Option<seq<T>>)
    ensures r.None? <==> Offset(page, pageSize) < 0 || pageSize < 0
    ensures r.Some? ==> |r.value| <= pageSize
    ensures r.Some? ==> forall k :: 0 <= k < |r.value| ==>
      Offset(page, pageSize) + k < |rows| && r.value[k] == rows[Offset(page, pageSize) + k]
    ensures r.Some? && Offset(page, pageSize) + pageSize <= |rows| ==> |r.value| == pageSize
  {
    var offset := Offset(page, pageSize);
    if offset < 0 || pageSize < 0 then None
    else Some(rows[Min(offset, |rows|)..Min(offset + pageSize, |rows|)])
  }

  /** The first n pages, one after another. */
  function Pages<T>(rows: seq<T>, n: nat, pageSize: nat): seq<T>
    decreases n
  {
    if n == 0 then [] else Pages(rows, n - 1, pageSize) + PageOf(rows, n, pageSize).value
  }

  /** Consecutive pages tile the list: pages 1..n are its first n * pageSize
      entries, with no gap and no overlap. */
  lemma {:induction false} PagesTile<T>(rows: seq<T>, n: nat, pageSize: nat)
    ensures Pages(rows, n, pageSize) == rows[..Min(n * pageSize, |rows|)]
    decreases n
  {
    if n > 0 {
      PagesTile(rows, n - 1, pageSize);
      assert Offset(n, pageSize) == (n - 1) * pageSize;
      assert (n - 1) * pageSize + pageSize == n * pageSize;
      var a := Min((n - 1) * pageSize, |rows|);
      var b := Min(n * pageSize, |rows|);
      assert a <= b by {
        assert (n - 1) * pageSize <= n * pageSize;
      }
      assert rows[..a] + rows[a..b] == rows[..b];
    }
  }

  class VocabularyService {
    const vocabularyMapper: VocabularyTable
    const wordMapper: WordTable

    constructor (vocabularyMapper: VocabularyTable, wordMapper: WordTable)
      ensures this.vocabularyMapper == vocabularyMapper && this.wordMapper == wordMapper
    {
      this.vocabularyMapper := vocabularyMapper;
      this.wordMapper := wordMapper;
    }

    /** addToVocabulary: an unknown word is rejected first (2002), then a
        word already in the book (2001); otherwise one entry is inserted and
        its id returned. */
    method AddToVocabulary(userId: int, wordId: int) returns (r: Result<int>)
      requires vocabularyMapper.Valid()
      modifies vocabularyMapper
      ensures vocabularyMapper.Valid()
      ensures !WordExists(wordMapper.rows, wordId) ==>
        r == Err(WordNotFound) && unchanged(vocabularyMapper)
      ensures WordExists(wordMapper.rows, wordId) && HasEntry(old(vocabularyMapper.entries), userId, wordId) ==>
        r == Err(AlreadyAdded) && unchanged(vocabularyMapper)
      ensures WordExists(wordMapper.rows, wordId) && !HasEntry(old(vocabularyMapper.entries), userId, wordId) ==>
        var id := old(vocabularyMapper.nextId);
        && r == Ok(id)
        && vocabularyMapper.entries == old(vocabularyMapper.entries)[id := NewEntry(id, userId, FindWord(wordMapper.rows, wordId).value)]
        && vocabularyMapper.nextId == id + 1
        && HasEntry(vocabularyMapper.entries, userId, wordId)
    {
      var w := FindWord(wordMapper.rows, wordId);
      if w.None? {
        return Err(WordNotFound);
      }
      if HasEntry(vocabularyMapper.entries, userId, wordId) {
        return Err(AlreadyAdded);
      }
      var st := Store(vocabularyMapper.entries, vocabularyMapper.nextId);
      StepValid(st, userId, wordId, wordMapper.rows);
      var id := vocabularyMapper.nextId;
      vocabularyMapper.entries := vocabularyMapper.entries[id := NewEntry(id, userId, w.value)];
      vocabularyMapper.nextId := id + 1;
      assert vocabularyMapper.entries[id].userId == userId && vocabularyMapper.entries[id].wordId == wordId;
      r := Ok(id);
    }

    /** batchAddOrGet: insert what is missing, word by word, then return the
        user's entries for the requested words. */
    method BatchAddOrGet(userId: int, wordIds: seq<int>) returns (r: set<Vocabulary>)
      requires vocabularyMapper.Valid()
      modifies vocabularyMapper
      ensures vocabularyMapper.Valid()
      ensures Store(vocabularyMapper.entries, vocabularyMapper.nextId)
        == Batch(Store(old(vocabularyMapper.entries), old(vocabularyMapper.nextId)), userId, wordIds, wordMapper.rows)
      ensures r == set id | id in vocabularyMapper.entries && vocabularyMapper.entries[id].userId == userId
                           && vocabularyMapper.entries[id].wordId in wordIds :: vocabularyMapper.entries[id]
    {
      ghost var start := Store(vocabularyMapper.entries, vocabularyMapper.nextId);
      var i := 0;
      while i < |wordIds|
        invariant 0 <= i <= |wordIds|
        invariant Store(vocabularyMapper.entries, vocabularyMapper.nextId)
          == Batch(start, userId, wordIds[..i], wordMapper.rows)
        invariant ValidEntries(vocabularyMapper.entries, vocabularyMapper.nextId)
      {
        var wordId := wordIds[i];
        assert wordIds[..i + 1][..i] == wordIds[..i];
        var st := Store(vocabularyMapper.entries, vocabularyMapper.nextId);
        StepValid(st, userId, wordId, wordMapper.rows);
        var w := FindWord(wordMapper.rows, wordId);
        if w.Some? && !HasEntry(vocabularyMapper.entries, userId, wordId) {
          var id := vocabularyMapper.nextId;
          vocabularyMapper.entries := vocabularyMapper.entries[id := NewEntry(id, userId, w.value)];
          vocabularyMapper.nextId := id + 1;
        }
        i := i + 1;
      }
      assert wordIds[..|wordIds|] == wordIds;
      r := set id | id in vocabularyMapper.entries && vocabularyMapper.entries[id].userId == userId
                    && vocabularyMapper.entries[id].wordId in wordIds :: vocabularyMapper.entries[id];
    }

    /** removeFromVocabulary: delete the user's entry, or 2003 when no entry of
        this user has the id. */
    method RemoveFromVocabulary(userId: int, vocabularyId: int) returns (r: Result<()>)
      requires vocabularyMapper.Valid()
      modifies vocabularyMapper
      ensures vocabularyMapper.Valid()
      ensures Owns(old(vocabularyMapper.entries), userId, vocabularyId) ==>
        r == Ok(()) && vocabularyMapper.entries == old(vocabularyMapper.entries) - {vocabularyId}
        && vocabularyMapper.nextId == old(vocabularyMapper.nextId)
      ensures !Owns(old(vocabularyMapper.entries), userId, vocabularyId) ==>
        r == Err(EntryNotFound) && unchanged(vocabularyMapper)
    {
      if !(vocabularyId in vocabularyMapper.entries && vocabularyMapper.entries[vocabularyId].userId == userId) {
        return Err(EntryNotFound);
      }
      vocabularyMapper.entries := vocabularyMapper.entries - {vocabularyId};
      assert forall a, b :: SameWordTwice(vocabularyMapper.entries, a, b) ==>
        SameWordTwice(old(vocabularyMapper.entries), a, b);
      r := Ok(());
    }
  }
}
