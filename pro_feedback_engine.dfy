/**
 * The reward economy: the subscription test, the feature gate with its price
 * table and its debit, and the day-granular streak with its milestone bonuses.
 */
module ProFeedbackEngine {
  import opened Base
  import opened Text
  import opened Models

  // ---------------------------------------------------------------------
  // Feature keys and the two rule tables
  // ---------------------------------------------------------------------

  const Wedo: string := "wedo"
  const Radar: string := "radar"
  const AnswerCompare: string := "answer_compare"
  const ExtraQuestion: string := "extra_question"
  const WeeklyReport: string := "weekly_report"
  const MonthlyReport: string := "monthly_report"
  const ExtraWedo: string := "extra_wedo"

  /** `TOKEN_PRICES` */
  const TokenPrices: map<string, int> := map[
    Radar := 3, AnswerCompare := 1, ExtraQuestion := 1,
    WeeklyReport := 2, MonthlyReport := 4, ExtraWedo := 2]

  /** The three pricing policies of `PRO_FREE`. */
  datatype Policy = ProOnly | IncludedInPro | TokenForBoth

  /** `PRO_FREE` */
  const ProFree: map<string, Policy> := map[
    Wedo := ProOnly, Radar := IncludedInPro, AnswerCompare := TokenForBoth,
    ExtraQuestion := TokenForBoth, WeeklyReport := IncludedInPro,
    MonthlyReport := IncludedInPro, ExtraWedo := TokenForBoth]

  /** `TOKEN_PRICES.get(feature, 0)`: a listed feature costs 1 to 4 tokens, any other nothing. */
  function PriceOf(feature: string): (p: int)
    ensures feature in TokenPrices ==> 1 <= p <= 4
    ensures feature !in TokenPrices ==> p == 0
  {
    assert TokenPrices.Keys == {Radar, AnswerCompare, ExtraQuestion, WeeklyReport, MonthlyReport, ExtraWedo};
    if feature in TokenPrices then TokenPrices[feature] else 0
  }

  // ---------------------------------------------------------------------
  // is_pro
  // ---------------------------------------------------------------------

  /** `is_pro`: the subscription says "pro" (in any letter case), or the pro window has not ended. */
  function IsPro(subscription: Option<string>, proUntil: ProUntil, now: Timestamp): (r: bool)
    ensures Lower(subscription.GetOr("")) == "pro" ==> r
    ensures Lower(subscription.GetOr("")) != "pro" ==> (r <==> proUntil.At? && now <= proUntil.t)
  {
    if Lower(subscription.GetOr("")) == "pro" then true
    else
      match proUntil
      case At(t) => t >= now
      case _ => false
  }

  /** An unparseable `pro_until` counts as no `pro_until` at all. */
  lemma UnparseableCountsAsUnset(subscription: Option<string>, now: Timestamp)
    ensures IsPro(subscription, Unparseable, now) == IsPro(subscription, Unset, now)
  {
  }

  /** The pro window is closed to the left: pro at some time means pro at every earlier time. */
  lemma ProWindowIsPrefix(subscription: Option<string>, proUntil: ProUntil, earlier: Timestamp, later: Timestamp)
    requires earlier <= later
    requires IsPro(subscription, proUntil, later)
    ensures IsPro(subscription, proUntil, earlier)
  {
  }

  // ---------------------------------------------------------------------
  // feature_cost_for_user
  // ---------------------------------------------------------------------

  /** The `reason` texts of the gate, one constructor per fixed message. */
  datatype Reason =
    | ProOnlyUnlocked      // the pro-only feature is unlocked
    | ProOnlyRequired      // the feature is available in Pro only
    | IncludedInProPlan    // included in Pro
    | PaidWithTokensInFree // in Free through tokens
    | TokensRequired       // a token is required
    | NoPriceSet           // no price configured

  datatype Decision = Decision(allowed: bool, cost: int, reason: Reason)

  /** The rule table of `feature_cost_for_user`, for a user whose pro status is `pro`. */
  function FeatureCost(pro: bool, feature: string): (d: Decision)
    ensures 0 <= d.cost
    ensures !d.allowed <==> feature in ProFree && ProFree[feature] == ProOnly && !pro
    ensures !d.allowed ==> d.cost == 0
    ensures d.cost > 0 ==> d.cost == PriceOf(feature) && feature in ProFree && ProFree[feature] != ProOnly
    ensures pro && d.cost > 0 ==> ProFree[feature] == TokenForBoth
  {
    if feature in ProFree && ProFree[feature] == ProOnly then
      if pro then Decision(true, 0, ProOnlyUnlocked) else Decision(false, 0, ProOnlyRequired)
    else if feature in ProFree && ProFree[feature] == IncludedInPro then
      if pro then Decision(true, 0, IncludedInProPlan)
      else Decision(true, PriceOf(feature), PaidWithTokensInFree)
    else if feature in ProFree && ProFree[feature] == TokenForBoth then
      Decision(true, PriceOf(feature), TokensRequired)
    else
      Decision(true, 0, NoPriceSet)
  }

  /** `feature_cost_for_user(user, feature)` */
  function FeatureCostForUser(subscription: Option<string>, proUntil: ProUntil, now: Timestamp, feature: string): (d: Decision)
    ensures Lower(subscription.GetOr("")) == "pro" ==>
      d.allowed && (d.cost > 0 ==> feature in ProFree && ProFree[feature] == TokenForBoth)
    ensures !IsPro(subscription, proUntil, now) && feature in ProFree && ProFree[feature] == IncludedInPro ==>
      d.allowed && d.cost == PriceOf(feature)
  {
    FeatureCost(IsPro(subscription, proUntil, now), feature)
  }

  /** Being pro never makes a feature less available or dearer. */
  lemma ProNeverWorseOff(feature: string)
    ensures FeatureCost(false, feature).allowed ==> FeatureCost(true, feature).allowed
    ensures FeatureCost(true, feature).cost <= FeatureCost(false, feature).cost
  {
  }

  /** The policy of each feature, read off the tables. */
  lemma FeatureTable(pro: bool)
    ensures FeatureCost(pro, Wedo) == Decision(pro, 0, if pro then ProOnlyUnlocked else ProOnlyRequired)
    ensures FeatureCost(pro, Radar).cost == (if pro then 0 else 3)
    ensures FeatureCost(pro, WeeklyReport).cost == (if pro then 0 else 2)
    ensures FeatureCost(pro, MonthlyReport).cost == (if pro then 0 else 4)
    ensures FeatureCost(pro, ExtraQuestion) == Decision(true, 1, TokensRequired)
    ensures FeatureCost(pro, AnswerCompare) == Decision(true, 1, TokensRequired)
    ensures FeatureCost(pro, ExtraWedo) == Decision(true, 2, TokensRequired)
    ensures FeatureCost(pro, "journal") == Decision(true, 0, NoPriceSet)
  {
  }

  // ---------------------------------------------------------------------
  // require_feature_or_charge
  // ---------------------------------------------------------------------

  /** The `message` texts of the debit, one constructor per message. */
  datatype ChargeMessage =
    | NotAllowed(reason: Reason)
    | FreeOfCharge
    | TooFewTokens(needed: int)
    | DebitFailed
    | Debited(amount: int)

  datatype ChargeResult = ChargeResult(ok: bool, message: ChargeMessage, tokens: int)

  /**
   * The debit of `require_feature_or_charge` on a balance of `tokens`, when the
   * commit succeeds exactly if `commitOk` (a failed commit rolls the balance back).
   */
  function Charge(d: Decision, tokens: int, commitOk: bool): (r: ChargeResult)
    ensures r.ok <==> d.allowed && (d.cost <= 0 || (d.cost <= tokens && commitOk))
    ensures r.tokens == tokens || (r.ok && 0 < d.cost && r.tokens == tokens - d.cost)
    ensures r.ok && 0 < d.cost ==> r.tokens == tokens - d.cost
    ensures r.tokens < tokens ==> 0 <= r.tokens
    ensures !r.ok ==> r.tokens == tokens
  {
    if !d.allowed then ChargeResult(false, NotAllowed(d.reason), tokens)
    else if d.cost <= 0 then ChargeResult(true, FreeOfCharge, tokens)
    else if tokens < d.cost then ChargeResult(false, TooFewTokens(d.cost), tokens)
    else if !commitOk then ChargeResult(false, DebitFailed, tokens)
    else ChargeResult(true, Debited(d.cost), tokens - d.cost)
  }

  /** A non-negative balance stays non-negative whatever is charged. */
  lemma BalanceNeverNegative(d: Decision, tokens: int, commitOk: bool)
    requires 0 <= tokens
    ensures 0 <= Charge(d, tokens, commitOk).tokens
  {
  }

  /** A free user asking for a pro-only feature is refused and charged nothing, whatever the balance. */
  lemma ProOnlyRefusesFreeUser(subscription: Option<string>, proUntil: ProUntil, now: Timestamp, tokens: int, commitOk: bool)
    requires !IsPro(subscription, proUntil, now)
    ensures Charge(FeatureCostForUser(subscription, proUntil, now, Wedo), tokens, commitOk)
         == ChargeResult(false, NotAllowed(ProOnlyRequired), tokens)
  {
  }

  /** A balance of one does not cover a two-token feature: refused, balance kept. */
  lemma TooFewTokensKeepsBalance(pro: bool, commitOk: bool)
    ensures Charge(FeatureCost(pro, ExtraWedo), 1, commitOk) == ChargeResult(false, TooFewTokens(2), 1)
  {
  }

  /** `require_feature_or_charge(db, user, feature)`; the commit succeeds exactly if `commitOk`. */
  method RequireFeatureOrCharge(user: User, feature: string, now: Timestamp, commitOk: bool)
    returns (ok: bool, message: ChargeMessage)
    modifies user`tokens
    ensures var r := Charge(FeatureCostForUser(user.subscription, user.proUntil, now, feature), old(user.tokens), commitOk);
      ok == r.ok && message == r.message && user.tokens == r.tokens
  {
    var d := FeatureCostForUser(user.subscription, user.proUntil, now, feature);
    if !d.allowed {
      return false, NotAllowed(d.reason);
    }
    if d.cost <= 0 {
      return true, FreeOfCharge;
    }
    var current := user.tokens;
    if current < d.cost {
      return false, TooFewTokens(d.cost);
    }
    user.tokens := current - d.cost;
    if !commitOk {
      // the rollback restores the stored balance
      user.tokens := current;
      return false, DebitFailed;
    }
    return true, Debited(d.cost);
  }

  // ---------------------------------------------------------------------
  // update_streak_and_grant_tokens
  // ---------------------------------------------------------------------

  /** The reward columns of a user: `streak`, `last_reflection_date`, `tokens`. */
  datatype StreakState = StreakState(streak: int, last: Option<Timestamp>, tokens: int)

  /** Milestone bonus on the resulting streak: day 3, 5 and 7. */
  function MilestoneBonus(streak: int): (n: nat)
    ensures n <= 3
    ensures n > 0 <==> streak == 3 || streak == 5 || streak == 7
  {
    if streak == 3 then 1 else if streak == 5 then 2 else if streak == 7 then 3 else 0
  }

  predicate SameDay(s: StreakState, now: Timestamp) {
    s.last.Some? && Day(s.last.value) == Day(now)
  }

  predicate PreviousDay(s: StreakState, now: Timestamp) {
    s.last.Some? && Day(s.last.value) == Day(now) - 1
  }

  /** The streak after the day transition, before the milestone reset. */
  function StepStreak(s: StreakState, now: Timestamp): int {
    if SameDay(s, now) then s.streak
    else if PreviousDay(s, now) then s.streak + 1
    else 1
  }

  /**
   * `update_streak_and_grant_tokens` exactly as the code runs it: the
   * milestone table is evaluated on every call, also on a second call the
   * same day.
   */
  function AdvanceAsWritten(s: StreakState, now: Timestamp): (r: StreakState)
    ensures r.last == Some(now)
    ensures s.tokens <= r.tokens <= s.tokens + 3
    ensures 0 <= s.streak <= 6 ==> 0 <= r.streak <= 6
  {
    var k := StepStreak(s, now);
    StreakState(if k == 7 then 0 else k, Some(now), s.tokens + MilestoneBonus(k))
  }

  /**
   * The streak update with the day-3/5/7 bonuses granted once per day: a
   * second call on the same day only records the time.
   */
  function Advance(s: StreakState, now: Timestamp): (r: StreakState)
    ensures r.last == Some(now)
    ensures s.tokens <= r.tokens <= s.tokens + 3
    ensures 0 <= s.streak <= 6 ==> 0 <= r.streak <= 6
    ensures SameDay(s, now) ==> r.streak == s.streak && r.tokens == s.tokens
  {
    if SameDay(s, now) then s.(last := Some(now))
    else AdvanceAsWritten(s, now)
  }

  /** The transition of the streak itself: same day kept, next day one more, otherwise restarted. */
  lemma StreakTransition(s: StreakState, now: Timestamp)
    ensures PreviousDay(s, now) && s.streak != 6 ==> Advance(s, now).streak == s.streak + 1
    ensures PreviousDay(s, now) && s.streak == 6 ==> Advance(s, now).streak == 0
    ensures !SameDay(s, now) && !PreviousDay(s, now) ==> Advance(s, now).streak == 1
  {
  }

  /** On a new day both versions agree. */
  lemma NewDayAgrees(s: StreakState, now: Timestamp)
    requires !SameDay(s, now)
    ensures Advance(s, now) == AdvanceAsWritten(s, now)
    ensures Advance(s, now).tokens == s.tokens + MilestoneBonus(StepStreak(s, now))
  {
  }

  /** As written, a second call on the same day grants the bonus of the streak it sits on again. */
  lemma AsWrittenSameDay(s: StreakState, now: Timestamp)
    requires SameDay(s, now)
    ensures AdvanceAsWritten(s, now).tokens == s.tokens + MilestoneBonus(s.streak)
    ensures AdvanceAsWritten(s, now).streak == if s.streak == 7 then 0 else s.streak
  {
  }

  /** A concrete double grant: day 3 reached, then a second call the same day earns the day-3 token again. */
  lemma AsWrittenRegrantsOnDayThree()
    ensures var s := StreakState(2, Some(0), 0);
      var first := AdvanceAsWritten(s, SecondsPerDay);
      var second := AdvanceAsWritten(first, SecondsPerDay + 60);
      first.tokens == 1 && second.tokens == 2 && second.streak == 3
  {
  }

  /** Calling twice on the same day changes nothing but the recorded time the second time. */
  lemma SameDayIdempotent(s: StreakState, t1: Timestamp, t2: Timestamp)
    requires Day(t1) == Day(t2)
    ensures Advance(Advance(s, t1), t2) == Advance(s, t1).(last := Some(t2))
  {
  }

  /** The state after a run of calls, one per timestamp, in order. */
  function Run(s: StreakState, ts: seq<Timestamp>): StreakState
    decreases |ts|
  {
    if ts == [] then s else Advance(Run(s, ts[..|ts| - 1]), ts[|ts| - 1])
  }

  /** Consecutive calendar days. */
  predicate Consecutive(ts: seq<Timestamp>) {
    forall i :: 0 < i < |ts| ==> Day(ts[i]) == Day(ts[i - 1]) + 1
  }

  /** Bonus earned by the first `r` days of a seven-day cycle. */
  function CycleBonus(r: int): int {
    if r < 3 then 0 else if r < 5 then 1 else if r < 7 then 3 else 6
  }

  lemma CycleStep(k: nat)
    ensures k % 7 == 6 ==> (k + 1) % 7 == 0 && (k + 1) / 7 == k / 7 + 1
    ensures k % 7 != 6 ==> (k + 1) % 7 == k % 7 + 1 && (k + 1) / 7 == k / 7
  {
  }

  /**
   * After `k` consecutive days starting without a streak to extend, the
   * streak is `k mod 7` and the days have earned 6 tokens per full week plus
   * the bonuses of the current week.
   */
  lemma {:induction false} ConsecutiveDays(s: StreakState, ts: seq<Timestamp>)
    requires ts != [] && Consecutive(ts)
    requires !SameDay(s, ts[0]) && !PreviousDay(s, ts[0])
    ensures Run(s, ts).streak == |ts| % 7
    ensures Run(s, ts).last == Some(ts[|ts| - 1])
    ensures Run(s, ts).tokens == s.tokens + 6 * (|ts| / 7) + CycleBonus(|ts| % 7)
    decreases |ts|
  {
    var k := |ts| - 1;
    if k == 0 {
      assert ts[..0] == [];
    } else {
      var prefix := ts[..k];
      assert Consecutive(prefix) by {
        forall i | 0 < i < |prefix| ensures Day(prefix[i]) == Day(prefix[i - 1]) + 1 {
          assert prefix[i] == ts[i] && prefix[i - 1] == ts[i - 1];
        }
      }
      assert prefix[0] == ts[0];
      ConsecutiveDays(s, prefix);
      CycleStep(k);
      assert Day(ts[k]) == Day(ts[k - 1]) + 1;
    }
  }

  /** A week of daily reflections grants 1 + 2 + 3 = 6 tokens, ends with streak 0, and day 8 starts again at 1. */
  lemma {:induction false} WeekOfReflections(s: StreakState, ts: seq<Timestamp>)
    requires |ts| == 8 && Consecutive(ts)
    requires !SameDay(s, ts[0]) && !PreviousDay(s, ts[0])
    ensures Run(s, ts[..7]).tokens == s.tokens + 6
    ensures Run(s, ts[..7]).streak == 0
    ensures Run(s, ts).streak == 1
  {
    var week := ts[..7];
    assert Consecutive(week) by {
      forall i | 0 < i < |week| ensures Day(week[i]) == Day(week[i - 1]) + 1 {
        assert week[i] == ts[i] && week[i - 1] == ts[i - 1];
      }
    }
    assert week[0] == ts[0];
    ConsecutiveDays(s, week);
    ConsecutiveDays(s, ts);
  }

  /**
   * `update_streak_and_grant_tokens(db, user, now)` with the bonuses granted
   * once per day; the commit succeeds exactly if `commitOk`, and a failed
   * commit rolls all three columns back.
   */
  method UpdateStreakAndGrantTokens(user: User, now: Timestamp, commitOk: bool) returns (ok: bool)
    modifies user`streak, user`lastReflection, user`tokens
    ensures ok == commitOk
    ensures var before := StreakState(old(user.streak), old(user.lastReflection), old(user.tokens));
      var after := if ok then Advance(before, now) else before;
      user.streak == after.streak && user.lastReflection == after.last && user.tokens == after.tokens
  {
    var before := StreakState(user.streak, user.lastReflection, user.tokens);
    var today := Day(now);
    var sameDay := user.lastReflection.Some? && Day(user.lastReflection.value) == today;
    if sameDay {
      // already counted today
    } else if user.lastReflection.Some? && Day(user.lastReflection.value) == today - 1 {
      user.streak := user.streak + 1;
    } else {
      user.streak := 1;
    }
    user.lastReflection := Some(now);

    var earned := 0;
    if !sameDay {
      if user.streak == 3 {
        earned := earned + 1;
      } else if user.streak == 5 {
        earned := earned + 2;
      } else if user.streak == 7 {
        earned := earned + 3;
        user.streak := 0;
      }
    }
    if earned != 0 {
      user.tokens := user.tokens + earned;
    }

    ok := commitOk;
    if !ok {
      user.streak, user.lastReflection, user.tokens := before.streak, before.last, before.tokens;
    }
  }
}
