/**
 * The persistent records the engines read and write: the user row with its
 * subscription and reward fields, catalog questions, the per-user question
 * history (one row per user and question) and the per-user category scores.
 */
module Models {
  import opened Base

  /**
   * The stored `pro_until` column as the engines read it: missing or empty,
   * a point in time (a datetime, or ISO text that parses), or text that
   * does not parse as an ISO timestamp.
   */
  datatype ProUntil = Unset | At(t: Timestamp) | Unparseable

  /** The user row; only the columns the engines use. */
  class User {
    var id: int
    var subscription: Option<string>
    var proUntil: ProUntil
    /** `tokens`; a NULL column is read as 0 */
    var tokens: int
    /** `streak`; a NULL column is read as 0 */
    var streak: int
    var lastReflection: Option<Timestamp>
    var motive: Option<string>
    var chance: Option<string>

    constructor (id: int)
      ensures this.id == id && subscription == None && proUntil == Unset
      ensures tokens == 0 && streak == 0 && lastReflection == None
      ensures motive == None && chance == None
    {
      this.id := id;
      subscription, proUntil := None, Unset;
      tokens, streak, lastReflection := 0, 0, None;
      motive, chance := None, None;
    }
  }

  /** A catalog question; `mode` is "morning", "evening" or "any". */
  datatype Question = Question(
    id: int,
    category: string,
    subcategory: Option<string>,
    difficulty: int,
    mode: string,
    text: string,
    suggestedTips: Option<string>)

  /** One row of the question history, keyed by (user id, question id). */
  datatype HistoryRecord = HistoryRecord(
    mode: string,
    askedAt: Timestamp,
    answeredAt: Option<Timestamp>,
    quality: Option<int>)

  /** One row of the category scores, keyed by (user id, category). */
  datatype CategoryScore = CategoryScore(score: int, lastSeen: Option<Timestamp>)

  /**
   * The tables the question engine queries. The unique constraints on
   * (user, question) and (user, category) make the history and the scores maps.
   */
  class Database {
    var questions: seq<Question>
    var history: map<(int, int), HistoryRecord>
    var scores: map<(int, string), CategoryScore>

    constructor (questions: seq<Question>)
      ensures this.questions == questions && history == map[] && scores == map[]
    {
      this.questions := questions;
      history, scores := map[], map[];
    }
  }

  /** `Question.query.get(qid)` */
  function FindQuestion(questions: seq<Question>, qid: int): (r: Option<Question>)
    ensures r.Some? ==> r.value in questions && r.value.id == qid
    ensures r.None? ==> forall q :: q in questions ==> q.id != qid
  {
    if questions == [] then None
    else if questions[0].id == qid then Some(questions[0])
    else FindQuestion(questions[1..], qid)
  }

  /** `sc.score if sc else 0` for the row (uid, category). */
  function ScoreOf(scores: map<(int, string), CategoryScore>, uid: int, category: string): int {
    if (uid, category) in scores then scores[(uid, category)].score else 0
  }
}
