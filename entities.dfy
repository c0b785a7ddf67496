/** The persistent records the services read and write (the entity classes).
    Timestamps are day numbers; the model does no calendar arithmetic. */
module Entities {
  import opened Common

  /** A catalog word (table `words`). */
  datatype Word = Word(id: int, word: string, phonetic: Option<string>, meaningCn: string)

  /** One user's relationship to one catalog word (table `vocabulary`), with the
      catalog word the mapper joins in (`null` when the join finds nothing).
      `easinessFactor` is held in hundredths: 250 stands for 2.5. */
  datatype Vocabulary = Vocabulary(
    id: int,
    userId: int,
    wordId: int,
    familiarity: Option<int>,
    reviewCount: Option<int>,
    easinessFactor: Option<int>,
    intervalDays: Option<int>,
    nextReviewDate: Option<int>,
    lastReviewDate: Option<int>,
    word: Option<Word>)

  /** One self-rating event (table `review_records`). */
  datatype ReviewRecord = ReviewRecord(
    userId: int,
    vocabularyId: int,
    rating: Option<string>,
    testPassed: Option<bool>,
    responseTimeMs: Option<int>)

  /** An account (table `users`). */
  datatype User = User(
    id: int,
    username: string,
    email: Option<string>,
    passwordHash: string,
    avatarUrl: Option<string>,
    dailyGoal: Option<int>,
    difficultyLevel: Option<string>)

  /** A sentence the user wrote for a word (table `session_words`, action type "sentence"). */
  datatype SessionWord = SessionWord(
    sessionId: int,
    vocabularyId: int,
    userSentence: string,
    aiFeedback: string,
    score: int)

  /** An AI-generated reading session (table `learning_sessions`). */
  datatype LearningSession = LearningSession(
    id: int,
    userId: int,
    sessionType: string,
    aiArticle: string,
    theme: Option<string>,
    difficultyPreference: Option<string>,
    targetWordCount: int)
}
