/** The relational store, one class per table the services write (the mapper
    interfaces), and the lookups their queries perform. */
module Tables {
  import opened Common
  import opened Entities
  import SM2

  /** The scheduling invariants of a vocabulary entry: familiarity within
      [0, 100], a non-negative review count and interval, and an ease factor
      at the 1.3 floor or above. A null field is one never scheduled. */
  predicate WellScheduled(v: Vocabulary) {
    && (v.familiarity.Some? ==> 0 <= v.familiarity.value <= 100)
    && (v.reviewCount.Some? ==> v.reviewCount.value >= 0)
    && (v.easinessFactor.Some? ==> v.easinessFactor.value >= SM2.MinEase)
    && (v.intervalDays.Some? ==> v.intervalDays.value >= 0)
  }

  /** `existsByUserIdAndWordId`. */
  predicate HasEntry(entries: map<int, Vocabulary>, userId: int, wordId: int) {
    exists id :: id in entries && entries[id].userId == userId && entries[id].wordId == wordId
  }

  /** The entry exists and belongs to the user. */
  predicate Owns(entries: map<int, Vocabulary>, userId: int, id: int) {
    id in entries && entries[id].userId == userId
  }

  /** Two entries of one user for one word. */
  predicate SameWordTwice(entries: map<int, Vocabulary>, a: int, b: int) {
    a in entries && b in entries && entries[a].userId == entries[b].userId &&
    entries[a].wordId == entries[b].wordId
  }

  /** Ids match their keys and lie below the counter, every entry keeps the
      scheduling invariants, and a user has at most one entry per word. */
  ghost predicate ValidEntries(entries: map<int, Vocabulary>, nextId: int) {
    && (forall id :: id in entries ==>
          entries[id].id == id && id < nextId && WellScheduled(entries[id]))
    && (forall a, b :: SameWordTwice(entries, a, b) ==> a == b)
  }

  /** Table `vocabulary`, keyed by entry id; `nextId` is the next
      auto-increment value. */
  class VocabularyTable {
    var entries: map<int, Vocabulary>
    var nextId: int

    ghost predicate Valid()
      reads this
    {
      ValidEntries(entries, nextId)
    }

    constructor ()
      ensures Valid() && entries == map[] && nextId == 1
    {
      entries := map[];
      nextId := 1;
    }
  }

  /** Table `words`, in the order `findAll` lists it. */
  class WordTable {
    var rows: seq<Word>

    constructor (rows: seq<Word>)
      ensures this.rows == rows
    {
      this.rows := rows;
    }
  }

  /** `wordMapper.findById(id) != null`. */
  predicate WordExists(words: seq<Word>, id: int) {
    exists k :: 0 <= k < |words| && words[k].id == id
  }

  /** `wordMapper.findById(id)`: the first word with this id. */
  function FindWord(words: seq<Word>, id: int): (r: Option<Word>)
    ensures r.Some? <==> WordExists(words, id)
    ensures r.Some? ==> r.value.id == id && r.value in words
  {
    if words == [] then None
    else if words[0].id == id then Some(words[0])
    else
      var r := FindWord(words[1..], id);
      assert WordExists(words[1..], id) ==> WordExists(words, id) by {
        if WordExists(words[1..], id) {
          var k :| 0 <= k < |words[1..]| && words[1..][k].id == id;
          assert words[k + 1].id == id;
        }
      }
      r
  }

  /** Table `review_records`; a record's id is its position. */
  class ReviewRecordTable {
    var rows: seq<ReviewRecord>

    constructor ()
      ensures rows == []
    {
      rows := [];
    }
  }

  /** Ids follow the rows, usernames are unique, and so is every non-empty
      email. */
  predicate ValidUsers(rows: seq<User>) {
    && (forall i :: 0 <= i < |rows| ==> rows[i].id == i + 1)
    && (forall i, j :: 0 <= i < j < |rows| ==> rows[i].username != rows[j].username)
    && (forall i, j :: 0 <= i < j < |rows| && NonEmpty(rows[i].email) ==>
          rows[i].email != rows[j].email)
  }

  /** Table `users`; the user with id k is row k - 1. */
  class UserTable {
    var rows: seq<User>

    ghost predicate Valid()
      reads this
    {
      ValidUsers(rows)
    }

    constructor ()
      ensures Valid() && rows == []
    {
      rows := [];
    }
  }

  /** `userMapper.findById`. */
  function FindUser(rows: seq<User>, id: int): Option<User> {
    if 1 <= id <= |rows| then Some(rows[id - 1]) else None
  }

  /** The position of the first user with this username (`findByUsername`). */
  function FindByUsername(rows: seq<User>, username: string): (r: Option<nat>)
    ensures r.Some? ==>
      r.value < |rows| && rows[r.value].username == username &&
      forall k :: 0 <= k < r.value ==> rows[k].username != username
    ensures r.None? <==> forall k :: 0 <= k < |rows| ==> rows[k].username != username
  {
    if rows == [] then None
    else if rows[0].username == username then Some(0)
    else match FindByUsername(rows[1..], username)
      case None => None
      case Some(k) => Some(k + 1)
  }

  /** The position of the first user with this email (`findByEmail`). */
  function FindByEmail(rows: seq<User>, email: string): (r: Option<nat>)
    ensures r.Some? ==>
      r.value < |rows| && rows[r.value].email == Some(email) &&
      forall k :: 0 <= k < r.value ==> rows[k].email != Some(email)
    ensures r.None? <==> forall k :: 0 <= k < |rows| ==> rows[k].email != Some(email)
  {
    if rows == [] then None
    else if rows[0].email == Some(email) then Some(0)
    else match FindByEmail(rows[1..], email)
      case None => None
      case Some(k) => Some(k + 1)
  }

  /** The key of the one-sentence-per-word store: the user and the catalog word. */
  datatype SentenceKey = SentenceKey(userId: int, wordId: int)

  /** The sentence records of table `session_words`, as
      `findSentenceByUserIdAndWordId` sees them: at most one per user and word. */
  class SentenceTable {
    var best: map<SentenceKey, SessionWord>

    constructor ()
      ensures best == map[]
    {
      best := map[];
    }
  }

  /** Table `learning_sessions`; the session with id k is row k - 1. */
  class SessionTable {
    var rows: seq<LearningSession>

    constructor ()
      ensures rows == []
    {
      rows := [];
    }
  }
}
