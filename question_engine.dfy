/**
 * The question engine of the web application: which question a user is
 * asked next, what an answer does to the history and the category scores,
 * and how a promo code extends Pro time.
 *
 * The database is a `Database` object; queries become functions on its
 * fields, `random.choice` and `ORDER BY RANDOM()` become a nondeterministic
 * pick, and the current time and the bounds of the local day are parameters.
 */
module QuestionEngine {
  import opened Base
  import opened Text
  import opened Models
  import opened QuestionWeights
  import opened ProFeedbackEngine

  // ---------------------------------------------------------------------
  // The exclusion sets of select_next_question
  // ---------------------------------------------------------------------

  /** Step 1: the questions the user has answered (hard exclude). */
  function AnsweredIds(history: map<(int, int), HistoryRecord>, uid: int): (ids: set<int>)
    ensures forall qid :: qid in ids <==> (uid, qid) in history && history[(uid, qid)].answeredAt.Some?
  {
    set k | k in history.Keys && k.0 == uid && history[k].answeredAt.Some? :: k.1
  }

  /** Step 2: the questions asked today in this mode, `start <= asked_at < end`. */
  function AskedTodayIds(history: map<(int, int), HistoryRecord>, uid: int, mode: string,
                         start: Timestamp, end: Timestamp): (ids: set<int>)
    ensures forall qid :: qid in ids <==>
      (uid, qid) in history && history[(uid, qid)].mode == mode && start <= history[(uid, qid)].askedAt < end
  {
    set k | k in history.Keys && k.0 == uid && history[k].mode == mode
                                  && start <= history[k].askedAt < end :: k.1
  }

  /** The rows step 3 orders: this user, this mode, asked at or after the cutoff. */
  function RecentWindow(history: map<(int, int), HistoryRecord>, uid: int, mode: string, cutoff: Timestamp): (w: set<(int, int)>)
    ensures w <= history.Keys
    ensures forall k :: k in w <==> k in history && k.0 == uid && history[k].mode == mode && history[k].askedAt >= cutoff
  {
    set k | k in history.Keys && k.0 == uid && history[k].mode == mode && history[k].askedAt >= cutoff
  }

  /** `utcnow() - timedelta(days=max(1, recent_days_same_mode))` */
  function RecentCutoff(now: Timestamp, recentDays: int): (cutoff: Timestamp)
    ensures cutoff <= now - SecondsPerDay
  {
    AddDays(now, -Max(1, recentDays))
  }

  /**
   * `ORDER BY asked_at DESC LIMIT max(0, n)` over `window`: as many rows as
   * the limit allows, and no row left out was asked later than one taken.
   * Rows asked at the same instant may come in any order.
   */
  predicate IsLatest(history: map<(int, int), HistoryRecord>, window: set<(int, int)>, n: int, rows: set<(int, int)>)
    requires window <= history.Keys
  {
    rows <= window
    && |rows| == Min(Max(0, n), |window|)
    && forall a, b :: a in rows && b in window - rows ==> history[b].askedAt <= history[a].askedAt
  }

  /** Every non-empty set of rows has a latest one. */
  lemma {:induction false} LatestExists(history: map<(int, int), HistoryRecord>, s: set<(int, int)>)
    requires s != {} && s <= history.Keys
    ensures exists m :: m in s && forall b :: b in s ==> history[b].askedAt <= history[m].askedAt
    decreases |s|
  {
    var x :| x in s;
    if s != {x} {
      var rest := s - {x};
      LatestExists(history, rest);
      var m :| m in rest && forall b :: b in rest ==> history[b].askedAt <= history[m].askedAt;
      if history[x].askedAt <= history[m].askedAt {
        assert forall b :: b in s ==> history[b].askedAt <= history[m].askedAt;
      } else {
        assert forall b :: b in s ==> history[b].askedAt <= history[x].askedAt;
      }
    } else {
      assert forall b :: b in s ==> b == x;
    }
  }

  /** The step-3 query: the latest `n` rows of the window, taken one latest row at a time. */
  method LatestRows(history: map<(int, int), HistoryRecord>, window: set<(int, int)>, n: int)
    returns (rows: set<(int, int)>)
    requires window <= history.Keys
    ensures IsLatest(history, window, n, rows)
  {
    rows := {};
    var rest := window;
    var limit := Max(0, n);
    while |rows| < limit && rest != {}
      invariant rows + rest == window && rows !! rest
      invariant |rows| + |rest| == |window|
      invariant |rows| <= limit
      invariant forall a, b :: a in rows && b in rest ==> history[b].askedAt <= history[a].askedAt
      decreases |rest|
    {
      LatestExists(history, rest);
      var m :| m in rest && forall b :: b in rest ==> history[b].askedAt <= history[m].askedAt;
      rows, rest := rows + {m}, rest - {m};
    }
    assert window - rows == rest;
  }

  /** `{h.question_id for h in recent_hist}` */
  function RowIds(rows: set<(int, int)>): set<int> {
    set k | k in rows :: k.1
  }

  // ---------------------------------------------------------------------
  // candidates_for_cat
  // ---------------------------------------------------------------------

  /** `(Question.mode == mode) | (Question.mode == "any")` */
  predicate ModeFits(q: Question, mode: string) {
    q.mode == mode || q.mode == "any"
  }

  /** `Question.difficulty.between(max(1, lvl - 1), min(5, lvl + 1))`, both ends included. */
  predicate InBand(q: Question, lvl: int) {
    Max(1, lvl - 1) <= q.difficulty <= Min(5, lvl + 1)
  }

  /** The filters of the query in `candidates_for_cat`. */
  predicate Matches(q: Question, cat: string, respectLevel: bool, lvl: int, respectMode: bool, mode: string) {
    q.category == cat && (respectMode ==> ModeFits(q, mode)) && (respectLevel ==> InBand(q, lvl))
  }

  /** A question `candidates_for_cat` returns: it matches the query and is excluded neither hard nor soft. */
  predicate Eligible(q: Question, cat: string, respectLevel: bool, lvl: int, respectMode: bool, mode: string,
                     hard: set<int>, soft: set<int>) {
    Matches(q, cat, respectLevel, lvl, respectMode, mode) && q.id !in hard && q.id !in soft
  }

  /** The query itself: the catalog rows passing the filters, in catalog order. */
  function QueryCategory(questions: seq<Question>, cat: string, respectLevel: bool, lvl: int, respectMode: bool, mode: string)
    : (items: seq<Question>)
    ensures forall q :: q in items <==> q in questions && Matches(q, cat, respectLevel, lvl, respectMode, mode)
  {
    if questions == [] then []
    else
      var tail := QueryCategory(questions[1..], cat, respectLevel, lvl, respectMode, mode);
      if Matches(questions[0], cat, respectLevel, lvl, respectMode, mode) then [questions[0]] + tail else tail
  }

  /** `candidates_for_cat(cat, respect_level, respect_mode)` with the level already drawn. */
  method CandidatesForCat(questions: seq<Question>, cat: string, respectLevel: bool, lvl: int, respectMode: bool, mode: string,
                          hard: set<int>, soft: set<int>) returns (out: seq<Question>)
    ensures forall q :: q in out <==> q in questions && Eligible(q, cat, respectLevel, lvl, respectMode, mode, hard, soft)
  {
    var items := QueryCategory(questions, cat, respectLevel, lvl, respectMode, mode);
    out := [];
    for i := 0 to |items|
      invariant forall q :: q in out <==> q in items[..i] && q.id !in hard && q.id !in soft
    {
      var qq := items[i];
      assert items[..i + 1] == items[..i] + [qq];
      if qq.id in hard {
        continue;
      }
      if qq.id in soft {
        continue;
      }
      out := out + [qq];
    }
    assert items[..|items|] == items;
  }

  /** `lvl` is a level `personal_level(uid, c)` can draw. */
  predicate DrawnLevel(scores: map<(int, string), CategoryScore>, uid: int, c: string, lvl: int) {
    exists j :: 0 <= j < |Jitters| && lvl == PersonalLevel(ScoreOf(scores, uid, c), Jitters[j])
  }

  /** Category `c` has no candidate under these filters. */
  predicate NoCandidate(questions: seq<Question>, c: string, respectLevel: bool, lvl: int, respectMode: bool, mode: string,
                        hard: set<int>, soft: set<int>) {
    forall q :: q in questions ==> !Eligible(q, c, respectLevel, lvl, respectMode, mode, hard, soft)
  }

  /**
   * One stage of the staged search: the categories in priority order, the
   * first one with candidates gives a random candidate. With `respectLevel`
   * each category visited draws its own level, recorded in `levels`
   * (0 where no level is drawn); `at` is the category that answered, or
   * `|ordered|` when none did.
   */
  method SearchTier(questions: seq<Question>, ordered: seq<string>, respectLevel: bool, respectMode: bool, mode: string,
                    scores: map<(int, string), CategoryScore>, uid: int, hard: set<int>, soft: set<int>)
    returns (r: Option<Question>, ghost at: int, ghost levels: seq<int>)
    ensures 0 <= at <= |ordered| && (r.None? <==> at == |ordered|)
    ensures |levels| == (if r.Some? then at + 1 else |ordered|)
    ensures forall k :: 0 <= k < |levels| ==>
      if respectLevel then DrawnLevel(scores, uid, ordered[k], levels[k]) else levels[k] == 0
    ensures r.Some? ==> r.value in questions && Eligible(r.value, ordered[at], respectLevel, levels[at], respectMode, mode, hard, soft)
    ensures forall k :: 0 <= k < at ==> NoCandidate(questions, ordered[k], respectLevel, levels[k], respectMode, mode, hard, soft)
  {
    r, at, levels := None, 0, [];
    for i := 0 to |ordered|
      invariant |levels| == i
      invariant forall k :: 0 <= k < i ==>
        if respectLevel then DrawnLevel(scores, uid, ordered[k], levels[k]) else levels[k] == 0
      invariant forall k :: 0 <= k < i ==> NoCandidate(questions, ordered[k], respectLevel, levels[k], respectMode, mode, hard, soft)
    {
      var lvl := 0;
      if respectLevel {
        var j :| 0 <= j < |Jitters|;
        lvl := PersonalLevel(ScoreOf(scores, uid, ordered[i]), Jitters[j]);
      }
      levels := levels + [lvl];
      var cand := CandidatesForCat(questions, ordered[i], respectLevel, lvl, respectMode, mode, hard, soft);
      if cand != [] {
        assert cand[0] in cand;
        var q :| q in cand;
        r, at := Some(q), i;
        return;
      }
    }
    at := |ordered|;
  }

  // ---------------------------------------------------------------------
  // The fallbacks
  // ---------------------------------------------------------------------

  /** The catalog without the questions whose id is in `ex` (`notin_`; no filter for an empty set). */
  function Unexcluded(questions: seq<Question>, ex: set<int>): (pool: seq<Question>)
    ensures forall q :: q in pool <==> q in questions && q.id !in ex
  {
    if questions == [] then []
    else
      var tail := Unexcluded(questions[1..], ex);
      if questions[0].id !in ex then [questions[0]] + tail else tail
  }

  /**
   * The fallbacks as written: a question excluded neither hard nor soft,
   * else any question of the catalog, answered ones included.
   */
  function FallbackPoolAsWritten(questions: seq<Question>, hard: set<int>, soft: set<int>): (pool: seq<Question>)
    ensures forall q :: q in pool ==> q in questions
    ensures pool == [] <==> questions == []
    ensures (exists q :: q in questions && q.id !in hard && q.id !in soft) ==>
      forall q :: q in pool ==> q.id !in hard && q.id !in soft
    ensures (forall q :: q in questions ==> q.id in hard || q.id in soft) ==> pool == questions
  {
    var free := Unexcluded(questions, hard + soft);
    assert free != [] ==> free[0] in free;
    if free != [] then free else questions
  }

  /** With one answered question and one asked recently, the fallback as written may repeat the answered one. */
  lemma FallbackAsWrittenRepeatsAnswered()
    ensures var q1 := Question(1, "emotion", None, 1, "any", "a", None);
            var q2 := Question(2, "emotion", None, 1, "any", "b", None);
            q1 in FallbackPoolAsWritten([q1, q2], {1}, {2}) && q2.id !in {1}
  {
    var q1 := Question(1, "emotion", None, 1, "any", "a", None);
    var q2 := Question(2, "emotion", None, 1, "any", "b", None);
    assert [q1, q2][1..] == [q2];
    assert Unexcluded([q2], {1} + {2}) == [];
  }

  /**
   * The fallbacks as intended: a question excluded neither hard nor soft,
   * else an unanswered one, and only when every question is answered any
   * question of the catalog.
   */
  function FallbackPool(questions: seq<Question>, hard: set<int>, soft: set<int>): (pool: seq<Question>)
    ensures forall q :: q in pool ==> q in questions
    ensures pool == [] <==> questions == []
    ensures (exists q :: q in questions && q.id !in hard) ==> forall q :: q in pool ==> q.id !in hard
    ensures (exists q :: q in questions && q.id !in hard && q.id !in soft) ==>
      forall q :: q in pool ==> q.id !in hard && q.id !in soft
  {
    var free := Unexcluded(questions, hard + soft);
    var unanswered := Unexcluded(questions, hard);
    if free != [] then free
    else if unanswered != [] then unanswered
    else questions
  }

  // ---------------------------------------------------------------------
  // select_next_question
  // ---------------------------------------------------------------------

  /** `soft_exclude`: asked today in this mode (when asked for), together with the questions of the recent rows. */
  function SoftExclude(history: map<(int, int), HistoryRecord>, uid: int, mode: string, excludeTodaySameMode: bool,
                       todayStart: Timestamp, todayEnd: Timestamp, recent: set<(int, int)>): (ids: set<int>)
    ensures excludeTodaySameMode ==> AskedTodayIds(history, uid, mode, todayStart, todayEnd) <= ids
    ensures forall k :: k in recent ==> k.1 in ids
    ensures forall qid :: qid in ids ==>
      (excludeTodaySameMode && qid in AskedTodayIds(history, uid, mode, todayStart, todayEnd))
      || exists k :: k in recent && k.1 == qid
  {
    (if excludeTodaySameMode then AskedTodayIds(history, uid, mode, todayStart, todayEnd) else {}) + RowIds(recent)
  }

  /** The weighted priority order of the categories for this user and mode. */
  method OrderCategories(user: User, scores: map<(int, string), CategoryScore>, mode: string) returns (ordered: seq<string>)
    ensures ordered == OrderedCats(ScoreByCat(user.motive, user.chance, scores, user.id, mode))
    ensures multiset(ordered) == multiset(Cats)
  {
    var aw := AffinityWeightsForUser(user);
    var nw := NeedWeights(scores, user.id);
    var scoreByCat := map c | c in CatSet :: aw[c] * nw[c] * ModeWeightOf(mode, c);
    WeightsMakeScores(aw, nw, user.motive, user.chance, scores, user.id, mode);
    ordered := OrderedCats(scoreByCat);
  }

  /** The product of the three weight maps, category by category, is `score_by_cat`. */
  lemma WeightsMakeScores(aw: map<string, int>, nw: map<string, int>, motive: Option<string>, chance: Option<string>,
                          scores: map<(int, string), CategoryScore>, uid: int, mode: string)
    requires aw.Keys == CatSet && forall c :: c in Cats ==> aw[c] == AffinityWeight(motive, chance, c)
    requires nw == NeedWeights(scores, uid)
    ensures (map c | c in CatSet :: aw[c] * nw[c] * ModeWeightOf(mode, c)) == ScoreByCat(motive, chance, scores, uid, mode)
  {
    var m := map c | c in CatSet :: aw[c] * nw[c] * ModeWeightOf(mode, c);
    var w := ScoreByCat(motive, chance, scores, uid, mode);
    forall c | c in CatSet ensures m[c] == w[c] {
      assert c in Cats;
    }
  }

  /**
   * The priority the staged search keeps over `ordered`. Stage 1 visits the
   * categories in order, each with a level drawn for it (`levels`), and
   * answers from the first category with a candidate at its level and in
   * the mode. Stages 2 and 3 ask again in order, with the mode filter and
   * then without it, and answer from the first category with a candidate.
   * `tier` is the stage that answered (4: none did) and `at` the position of
   * its category in `ordered`.
   */
  predicate FollowsPriority(questions: seq<Question>, ordered: seq<string>, mode: string,
                            scores: map<(int, string), CategoryScore>, uid: int, hard: set<int>, soft: set<int>,
                            r: Option<Question>, tier: int, at: int, levels: seq<int>) {
    |levels| <= |ordered|
    && (forall k :: 0 <= k < |levels| ==> DrawnLevel(scores, uid, ordered[k], levels[k]))
    && (tier == 1 ==>
          r.Some? && 0 <= at < |ordered| && |levels| == at + 1
          && Eligible(r.value, ordered[at], true, levels[at], true, mode, hard, soft))
    && (forall k :: 0 <= k < (if tier == 1 then at else |levels|) ==>
          NoCandidate(questions, ordered[k], true, levels[k], true, mode, hard, soft))
    && (tier >= 2 ==> |levels| == |ordered|)
    && (tier == 2 || tier == 3 ==>
          r.Some? && 0 <= at < |ordered| && Eligible(r.value, ordered[at], false, 0, tier == 2, mode, hard, soft)
          && forall k :: 0 <= k < at ==> NoCandidate(questions, ordered[k], false, 0, tier == 2, mode, hard, soft))
    && (tier >= 3 ==> forall k :: 0 <= k < |ordered| ==> NoCandidate(questions, ordered[k], false, 0, true, mode, hard, soft))
    && (tier == 4 ==> forall k :: 0 <= k < |ordered| ==> NoCandidate(questions, ordered[k], false, 0, false, mode, hard, soft))
  }

  /**
   * `select_next_question(user, mode, ...)`. `ordered` is the priority order
   * of the categories it searched; `soft` is the soft exclude it used, built
   * from `recent`, the latest rows of the look-back window; `tier`, `at` and
   * `levels` are as in `FollowsPriority`. The fallback is the corrected one.
   */
  method SelectNextQuestion(db: Database, user: User, mode: string, excludeTodaySameMode: bool,
                            todayStart: Timestamp, todayEnd: Timestamp, now: Timestamp,
                            recentDays: int, excludeLastN: int)
    returns (r: Option<Question>, ghost tier: int, ghost recent: set<(int, int)>, ghost soft: set<int>,
             ghost ordered: seq<string>, ghost at: int, ghost levels: seq<int>)
    ensures r.None? <==> db.questions == []
    ensures r.Some? ==> r.value in db.questions
    ensures (exists q :: q in db.questions && q.id !in AnsweredIds(db.history, user.id)) ==>
      r.Some? && r.value.id !in AnsweredIds(db.history, user.id)
    ensures (exists q :: q in db.questions && q.id !in AnsweredIds(db.history, user.id) && q.id !in soft) ==>
      r.Some? && r.value.id !in AnsweredIds(db.history, user.id) && r.value.id !in soft
    ensures IsLatest(db.history, RecentWindow(db.history, user.id, mode, RecentCutoff(now, recentDays)), excludeLastN, recent)
    ensures soft == SoftExclude(db.history, user.id, mode, excludeTodaySameMode, todayStart, todayEnd, recent)
    ensures ordered == OrderedCats(ScoreByCat(user.motive, user.chance, db.scores, user.id, mode))
    ensures 1 <= tier <= 4
    ensures FollowsPriority(db.questions, ordered, mode, db.scores, user.id, AnsweredIds(db.history, user.id), soft,
                            r, tier, at, levels)
    ensures tier <= 3 ==>
      r.Some? && r.value.category in Cats && r.value.id !in AnsweredIds(db.history, user.id) && r.value.id !in soft
    ensures tier >= 3 ==> forall q :: q in db.questions && q.category in Cats && q.id !in soft ==>
      q.id in AnsweredIds(db.history, user.id) || !ModeFits(q, mode)
    ensures tier == 4 ==> forall q :: q in db.questions && q.category in Cats ==>
      q.id in AnsweredIds(db.history, user.id) || q.id in soft
  {
    var hard := AnsweredIds(db.history, user.id);
    var window := RecentWindow(db.history, user.id, mode, RecentCutoff(now, recentDays));
    var recentRows := LatestRows(db.history, window, excludeLastN);
    var softIds := SoftExclude(db.history, user.id, mode, excludeTodaySameMode, todayStart, todayEnd, recentRows);
    recent, soft := recentRows, softIds;

    var order := OrderCategories(user, db.scores, mode);
    ordered := order;
    r, tier, at, levels := StagedSearch(db.questions, order, mode, db.scores, user.id, hard, softIds);
    SameMembers(order);
  }

  /** The members of a permutation of `CATS` are the categories of `CATS`. */
  lemma SameMembers(ordered: seq<string>)
    requires multiset(ordered) == multiset(Cats)
    ensures forall c :: c in Cats <==> c in ordered
  {
    forall c ensures c in Cats <==> c in ordered {
      assert c in Cats <==> c in multiset(Cats);
      assert c in ordered <==> c in multiset(ordered);
    }
  }

  /** The three stages over the ordered categories, then the (corrected) fallbacks. */
  method StagedSearch(questions: seq<Question>, ordered: seq<string>, mode: string,
                      scores: map<(int, string), CategoryScore>, uid: int, hard: set<int>, soft: set<int>)
    returns (r: Option<Question>, ghost tier: int, ghost at: int, ghost levels: seq<int>)
    ensures r.None? <==> questions == []
    ensures r.Some? ==> r.value in questions
    ensures (exists q :: q in questions && q.id !in hard) ==> r.Some? && r.value.id !in hard
    ensures (exists q :: q in questions && q.id !in hard && q.id !in soft) ==>
      r.Some? && r.value.id !in hard && r.value.id !in soft
    ensures 1 <= tier <= 4
    ensures FollowsPriority(questions, ordered, mode, scores, uid, hard, soft, r, tier, at, levels)
    ensures tier <= 3 ==> r.Some? && r.value.category in ordered && r.value.id !in hard && r.value.id !in soft
    ensures tier >= 3 ==> forall q :: q in questions && q.category in ordered && q.id !in hard && q.id !in soft ==>
      !ModeFits(q, mode)
    ensures tier == 4 ==> forall q :: q in questions && q.category in ordered ==> q.id in hard || q.id in soft
  {
    ghost var lv;
    r, at, levels := SearchTier(questions, ordered, true, true, mode, scores, uid, hard, soft);
    if r.Some? {
      tier := 1;
      return;
    }
    r, at, lv := SearchTier(questions, ordered, false, true, mode, scores, uid, hard, soft);
    if r.Some? {
      tier := 2;
      return;
    }
    NoneOutsideOrder(questions, ordered, true, mode, hard, soft);
    r, at, lv := SearchTier(questions, ordered, false, false, mode, scores, uid, hard, soft);
    if r.Some? {
      tier := 3;
      return;
    }
    NoneOutsideOrder(questions, ordered, false, mode, hard, soft);
    tier := 4;
    var pool := FallbackPool(questions, hard, soft);
    if pool != [] {
      assert pool[0] in pool;
      var q :| q in pool;
      r := Some(q);
    } else {
      r := None;
    }
  }

  /** A stage that found nothing in any of the ordered categories leaves no candidate in them. */
  lemma NoneOutsideOrder(questions: seq<Question>, ordered: seq<string>, respectMode: bool, mode: string,
                         hard: set<int>, soft: set<int>)
    requires forall k :: 0 <= k < |ordered| ==> NoCandidate(questions, ordered[k], false, 0, respectMode, mode, hard, soft)
    ensures forall q :: q in questions && q.category in ordered && q.id !in hard && q.id !in soft ==> respectMode && !ModeFits(q, mode)
  {
    forall q | q in questions && q.category in ordered && q.id !in hard && q.id !in soft
      ensures respectMode && !ModeFits(q, mode)
    {
      var k :| 0 <= k < |ordered| && ordered[k] == q.category;
      assert !Eligible(q, ordered[k], false, 0, respectMode, mode, hard, soft);
    }
  }

  // ---------------------------------------------------------------------
  // update_after_answer
  // ---------------------------------------------------------------------

  /** `int(quality or 3)`: a missing or zero quality counts as 3. */
  function QualityOrDefault(quality: Option<int>): (q: int)
    ensures quality == None || quality == Some(0) ==> q == 3
    ensures quality.Some? && quality.value != 0 ==> q == quality.value
  {
    if quality.None? || quality.value == 0 then 3 else quality.value
  }

  /**
   * The history row after an answer: the existing row, or a new one with the
   * column defaults (mode "any", asked now), now answered with the quality.
   */
  function AnsweredRecord(existing: Option<HistoryRecord>, quality: Option<int>, now: Timestamp): (h: HistoryRecord)
    ensures h.answeredAt == Some(now) && h.quality == Some(QualityOrDefault(quality))
    ensures existing.Some? ==> h.mode == existing.value.mode && h.askedAt == existing.value.askedAt
    ensures existing.None? ==> h.mode == "any" && h.askedAt == now
  {
    var base := if existing.Some? then existing.value else HistoryRecord("any", now, None, None);
    base.(answeredAt := Some(now), quality := Some(QualityOrDefault(quality)))
  }

  /** `min(100, score + quality)` */
  function RaisedScore(score: int, quality: int): (s: int)
    ensures s <= 100
    ensures s == 100 || s == score + quality
    ensures score + quality <= 100 ==> s == score + quality
    ensures 0 <= quality && score <= 100 ==> score <= s
    ensures 0 <= score && 0 <= quality ==> 0 <= s
  {
    Min(100, score + quality)
  }

  /** The history after `uid` answers `qid`: that row is answered now, every other row is kept. */
  function AnswerHistory(history: map<(int, int), HistoryRecord>, uid: int, qid: int, quality: Option<int>, now: Timestamp)
    : (h: map<(int, int), HistoryRecord>)
    ensures h.Keys == history.Keys + {(uid, qid)}
    ensures h[(uid, qid)].answeredAt == Some(now) && h[(uid, qid)].quality == Some(QualityOrDefault(quality))
    ensures forall k :: k in history && k != (uid, qid) ==> h[k] == history[k]
  {
    var existing := if (uid, qid) in history then Some(history[(uid, qid)]) else None;
    history[(uid, qid) := AnsweredRecord(existing, quality, now)]
  }

  /**
   * The category scores after `uid` answers `qid`: the score of the
   * question's category is raised and stamped, every other row is kept;
   * nothing changes when `qid` is not in the catalog.
   */
  function AnswerScores(questions: seq<Question>, scores: map<(int, string), CategoryScore>, uid: int, qid: int,
                        quality: Option<int>, now: Timestamp): (out: map<(int, string), CategoryScore>)
    ensures FindQuestion(questions, qid).None? ==> out == scores
    ensures FindQuestion(questions, qid).Some? ==>
      var key := (uid, FindQuestion(questions, qid).value.category);
      out.Keys == scores.Keys + {key}
      && out[key].score == RaisedScore(ScoreOf(scores, uid, key.1), QualityOrDefault(quality))
      && out[key].lastSeen == Some(now)
      && forall k :: k in scores && k != key ==> out[k] == scores[k]
  {
    match FindQuestion(questions, qid)
    case None => scores
    case Some(q) =>
      scores[(uid, q.category) := CategoryScore(RaisedScore(ScoreOf(scores, uid, q.category), QualityOrDefault(quality)), Some(now))]
  }

  /** `update_after_answer(uid, qid, quality)`; the commit is left out. */
  method UpdateAfterAnswer(db: Database, uid: int, qid: int, quality: Option<int>, now: Timestamp)
    modifies db
    ensures db.questions == old(db.questions)
    ensures db.history == AnswerHistory(old(db.history), uid, qid, quality, now)
    ensures db.scores == AnswerScores(db.questions, old(db.scores), uid, qid, quality, now)
  {
    var existing := if (uid, qid) in db.history then Some(db.history[(uid, qid)]) else None;
    db.history := db.history[(uid, qid) := AnsweredRecord(existing, quality, now)];
    var q := FindQuestion(db.questions, qid);
    if q.Some? {
      var key := (uid, q.value.category);
      if key !in db.scores {
        db.scores := db.scores[key := CategoryScore(0, None)];
      }
      var sc := db.scores[key];
      db.scores := db.scores[key := CategoryScore(RaisedScore(sc.score, QualityOrDefault(quality)), Some(now))];
    }
  }

  /** Answering adds exactly the answered question to the user's hard exclude and leaves other users alone. */
  lemma AnsweringExcludes(history: map<(int, int), HistoryRecord>, uid: int, qid: int, quality: Option<int>, now: Timestamp, other: int)
    requires other != uid
    ensures AnsweredIds(AnswerHistory(history, uid, qid, quality, now), uid) == AnsweredIds(history, uid) + {qid}
    ensures AnsweredIds(AnswerHistory(history, uid, qid, quality, now), other) == AnsweredIds(history, other)
  {
    var h := AnswerHistory(history, uid, qid, quality, now);
    assert forall x :: x in AnsweredIds(h, uid) <==> x in AnsweredIds(history, uid) + {qid};
    assert forall x :: x in AnsweredIds(h, other) <==> x in AnsweredIds(history, other);
  }

  /** Every score stays in 0..100 while the qualities given are between 0 and 100. */
  lemma ScoreStaysInRange(questions: seq<Question>, scores: map<(int, string), CategoryScore>,
                                              uid: int, qid: int, quality: Option<int>, now: Timestamp)
    requires forall k :: k in scores ==> 0 <= scores[k].score <= 100
    requires quality.Some? ==> 0 <= quality.value <= 100
    ensures forall k :: k in AnswerScores(questions, scores, uid, qid, quality, now) ==>
      0 <= AnswerScores(questions, scores, uid, qid, quality, now)[k].score <= 100
  {
  }

  // ---------------------------------------------------------------------
  // _extend_pro_until
  // ---------------------------------------------------------------------

  /** The new end of Pro time: `max(1, days)` days after the later of now and a stored end still in the future. */
  function ExtendedUntil(proUntil: ProUntil, days: int, now: Timestamp): (t: Timestamp)
    ensures t >= AddDays(now, Max(1, days)) > now
    ensures proUntil.At? ==> t >= AddDays(proUntil.t, Max(1, days)) > proUntil.t
    ensures t == AddDays(now, Max(1, days)) || (proUntil.At? && t == AddDays(proUntil.t, Max(1, days)))
  {
    var base := if proUntil.At? && proUntil.t > now then proUntil.t else now;
    AddDays(base, Max(1, days))
  }

  /** `_extend_pro_until(user, days)` */
  method ExtendProUntil(user: User, days: int, now: Timestamp)
    modifies user`proUntil, user`subscription
    ensures user.proUntil == At(ExtendedUntil(old(user.proUntil), days, now))
    ensures user.subscription == Some("pro")
  {
    var base := now;
    if user.proUntil.At? && user.proUntil.t > now {
      base := user.proUntil.t;
    }
    user.proUntil := At(AddDays(base, Max(1, days)));
    user.subscription := Some("pro");
  }

  /** Two extensions from the same moment add up. */
  lemma ExtensionsAddUp(proUntil: ProUntil, a: int, b: int, now: Timestamp)
    requires 1 <= a && 1 <= b
    ensures ExtendedUntil(At(ExtendedUntil(proUntil, a, now)), b, now) == ExtendedUntil(proUntil, a + b, now)
  {
  }

  /**
   * The stored end alone keeps the user Pro for the whole extension; without
   * a "pro" subscription it makes the user Pro exactly until the new end.
   */
  lemma ExtendedUserIsPro(subscription: Option<string>, proUntil: ProUntil, days: int, now: Timestamp, later: Timestamp)
    requires now <= later
    ensures later <= ExtendedUntil(proUntil, days, now) ==> IsPro(subscription, At(ExtendedUntil(proUntil, days, now)), later)
    ensures Lower(subscription.GetOr("")) != "pro" ==>
      (IsPro(subscription, At(ExtendedUntil(proUntil, days, now)), later) <==> later <= ExtendedUntil(proUntil, days, now))
  {
  }
}
