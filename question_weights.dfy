/**
 * The weights behind question selection: affinity from the user's own words,
 * need from the category scores, the personal difficulty level, the
 * time-of-day table, and the stable priority order of the categories.
 */
module QuestionWeights {
  import opened Base
  import opened Text
  import opened Models
  import opened StableSort

  /** `CATS` */
  const Cats: seq<string> :=
    ["selbstbild", "emotion", "gewohnheit", "beziehung", "mindset", "vision", "zukunft", "koerper"]

  const CatSet: set<string> := set c | c in Cats

  lemma CatsDistinct()
    ensures forall i, j :: 0 <= i < j < |Cats| ==> Cats[i] != Cats[j]
  {
  }

  /** `MODE_WEIGHT` */
  const ModeWeight: map<string, map<string, int>> := map[
    "morning" := map["gewohnheit" := 3, "zukunft" := 3, "koerper" := 3, "vision" := 2,
                     "selbstbild" := 2, "emotion" := 2, "mindset" := 2, "beziehung" := 1],
    "evening" := map["selbstbild" := 3, "emotion" := 3, "mindset" := 2, "beziehung" := 2,
                     "koerper" := 2, "gewohnheit" := 1, "vision" := 1, "zukunft" := 1]]

  /** `MODE_WEIGHT.get(mode, {c: 1 for c in CATS}).get(c, 1)` */
  function ModeWeightOf(mode: string, c: string): (w: int)
    ensures 1 <= w <= 3
    ensures !(mode in ModeWeight && c in ModeWeight[mode]) ==> w == 1
  {
    if mode in ModeWeight && c in ModeWeight[mode] then ModeWeight[mode][c] else 1
  }

  /** `AFFINITY`: the trigger words of each category. */
  const Affinity: map<string, seq<string>> := map[
    "selbstbild" := ["selbstbewusstsein", "stärke", "wert", "vertrauen", "identität"],
    "emotion" := ["stress", "ruhe", "gefühle", "angst", "resilienz"],
    "gewohnheit" := ["routine", "disziplin", "sport", "produktivität"],
    "beziehung" := ["freund", "partner", "familie", "netzwerk", "empathie"],
    "mindset" := ["glaubenssatz", "optimismus", "zweifel", "denken"],
    "vision" := ["kreativität", "traum", "projekt", "gründung"],
    "zukunft" := ["ziel", "karriere", "planung", "studium"],
    "koerper" := ["schlaf", "energie", "körper", "ernährung", "bewegung"]]

  /** The trigger words a table lists for category `c`; none when `c` has no entry. */
  function TriggerWordsIn(table: map<string, seq<string>>, c: string): seq<string> {
    if c in table then table[c] else []
  }

  function TriggerWords(c: string): seq<string> {
    TriggerWordsIn(Affinity, c)
  }

  // ---------------------------------------------------------------------
  // tokenize
  // ---------------------------------------------------------------------

  /** The character class `[a-zäöüß]`. */
  predicate IsTokenLetter(c: char) {
    'a' <= c <= 'z' || c == 'ä' || c == 'ö' || c == 'ü' || c == 'ß'
  }

  /** `tokenize(text)`: the maximal runs of `[a-zäöüß]` in the lower-cased text; None reads as "". */
  function Tokenize(text: Option<string>): (r: seq<string>)
    ensures forall k :: 0 <= k < |r| ==> r[k] != [] && forall i :: 0 <= i < |r[k]| ==> IsTokenLetter(r[k][i])
  {
    Runs(Lower(text.GetOr("")), IsTokenLetter)
  }

  /** Every token is already lower case. */
  lemma TokensAreLowerCase(text: Option<string>, k: nat)
    requires k < |Tokenize(text)|
    ensures Lower(Tokenize(text)[k]) == Tokenize(text)[k]
  {
    var t := Tokenize(text)[k];
    forall i | 0 <= i < |t| ensures Lower(t)[i] == t[i] {
      assert IsTokenLetter(t[i]);
    }
  }

  /** Every token letter of the lower-cased text is in exactly one token, in text order. */
  lemma TokenizeKeepsLetters(text: Option<string>)
    ensures Flatten(Tokenize(text)) == Keep(Lower(text.GetOr("")), IsTokenLetter)
  {
    RunsKeepEverything(Lower(text.GetOr("")), IsTokenLetter);
  }

  lemma TokenizeNone()
    ensures Tokenize(None) == Tokenize(Some("")) == []
  {
  }

  // ---------------------------------------------------------------------
  // affinity_weights_for_user
  // ---------------------------------------------------------------------

  /** How many of `keys` occur among the tokens, counted along the list. */
  function CountPresent(keys: seq<string>, tokens: seq<string>): (n: nat)
    ensures n <= |keys|
  {
    if keys == [] then 0
    else CountPresent(keys[..|keys| - 1], tokens) + (if keys[|keys| - 1] in tokens then 1 else 0)
  }

  /** The text `affinity_weights_for_user` tokenizes: motive, a blank, chance. */
  function InterestText(motive: Option<string>, chance: Option<string>): string {
    motive.GetOr("") + " " + chance.GetOr("")
  }

  /** The affinity weight of category `c`: 1, plus 2 for every trigger word of `c` in the text. */
  function AffinityWeight(motive: Option<string>, chance: Option<string>, c: string): int {
    1 + 2 * CountPresent(TriggerWords(c), Tokenize(Some(InterestText(motive, chance))))
  }

  /** No category is ever excluded by affinity, and each trigger word adds at most 2. */
  lemma {:induction false} AffinityWeightBounds(motive: Option<string>, chance: Option<string>, c: string)
    ensures 1 <= AffinityWeight(motive, chance, c) <= 1 + 2 * |TriggerWords(c)|
    ensures AffinityWeight(motive, chance, c) % 2 == 1
  {
  }

  /** Every trigger word counts when all of them are present, none when none is. */
  lemma {:induction false} CountPresentExtremes(keys: seq<string>, tokens: seq<string>)
    ensures (forall k :: k in keys ==> k in tokens) ==> CountPresent(keys, tokens) == |keys|
    ensures (forall k :: k in keys ==> k !in tokens) ==> CountPresent(keys, tokens) == 0
    decreases |keys|
  {
    if keys != [] {
      var init := keys[..|keys| - 1];
      assert forall k :: k in init ==> k in keys;
      CountPresentExtremes(init, tokens);
    }
  }

  /** The inner loop of `affinity_weights_for_user`: +2 on `c` for every word of `keys` among the tokens. */
  method AddTriggerHits(w0: map<string, int>, c: string, keys: seq<string>, t: seq<string>) returns (w: map<string, int>)
    requires c in w0
    ensures w == w0[c := w0[c] + 2 * CountPresent(keys, t)]
  {
    w := w0;
    for j := 0 to |keys|
      invariant w.Keys == w0.Keys
      invariant w[c] == w0[c] + 2 * CountPresent(keys[..j], t)
      invariant forall d :: d in w && d != c ==> w[d] == w0[d]
    {
      assert CountPresent(keys[..j + 1], t) == CountPresent(keys[..j], t) + (if keys[j] in t then 1 else 0) by {
        assert keys[..j + 1][..j] == keys[..j];
      }
      if keys[j] in t {
        w := w[c := w[c] + 2];
      }
    }
    assert keys[..|keys|] == keys;
  }

  /** The outer loop of `affinity_weights_for_user`: the trigger hits of every category in `cats`, in turn. */
  method AddCategoryHits(w0: map<string, int>, cats: seq<string>, table: map<string, seq<string>>, t: seq<string>)
    returns (w: map<string, int>)
    requires forall i, j :: 0 <= i < j < |cats| ==> cats[i] != cats[j]
    requires forall c :: c in cats ==> c in w0
    ensures w.Keys == w0.Keys
    ensures forall d :: d in w0 ==> w[d] == w0[d] + (if d in cats then 2 * CountPresent(TriggerWordsIn(table, d), t) else 0)
  {
    w := w0;
    for i := 0 to |cats|
      invariant w.Keys == w0.Keys
      invariant forall d :: d in w0 ==> w[d] == w0[d] + (if d in cats[..i] then 2 * CountPresent(TriggerWordsIn(table, d), t) else 0)
    {
      var c := cats[i];
      assert c !in cats[..i];
      w := AddTriggerHits(w, c, TriggerWordsIn(table, c), t);
      assert cats[..i + 1] == cats[..i] + [c];
    }
    assert cats[..|cats|] == cats;
  }

  /** `affinity_weights_for_user(user)`: every category starts at 1; the loops add the trigger hits. */
  method AffinityWeightsForUser(user: User) returns (w: map<string, int>)
    ensures w.Keys == CatSet
    ensures forall c :: c in Cats ==> w[c] == AffinityWeight(user.motive, user.chance, c)
  {
    var t := Tokenize(Some(InterestText(user.motive, user.chance)));
    w := map c | c in CatSet :: 1;
    CatsDistinct();
    // AFFINITY lists its categories in the order of CATS.
    w := AddCategoryHits(w, Cats, Affinity, t);
  }

  // ---------------------------------------------------------------------
  // need_weights_for_user
  // ---------------------------------------------------------------------

  /** `max(1, 100 - score)` */
  function NeedWeight(score: int): (w: int)
    ensures 1 <= w
    ensures 0 <= score ==> w <= 100
  {
    Max(1, 100 - score)
  }

  /** `need_weights_for_user(uid)` */
  function NeedWeights(scores: map<(int, string), CategoryScore>, uid: int): (w: map<string, int>)
    ensures w.Keys == CatSet
  {
    map c | c in CatSet :: NeedWeight(ScoreOf(scores, uid, c))
  }

  /** A never-practised category has full need, a mastered one keeps need 1, and more practice never raises need. */
  lemma NeedWeightShape(scores: map<(int, string), CategoryScore>, uid: int, c: string, lower: int, higher: int)
    requires lower <= higher
    ensures (uid, c) !in scores ==> NeedWeight(ScoreOf(scores, uid, c)) == 100
    ensures NeedWeight(100) == 1
    ensures NeedWeight(higher) <= NeedWeight(lower)
  {
  }

  // ---------------------------------------------------------------------
  // personal_level
  // ---------------------------------------------------------------------

  /** The jitter outcomes `random.choice` draws from; 0 listed twice. */
  const Jitters: seq<int> := [-1, 0, 0, 1]

  /** `max(1, min(5, s // 20 + 1))` */
  function BaseLevel(score: int): (lvl: int)
    ensures 1 <= lvl <= 5
  {
    Clamp(1, 5, score / 20 + 1)
  }

  /** `personal_level` for a score and the drawn jitter. */
  function PersonalLevel(score: int, jitter: int): (lvl: int)
    ensures 1 <= lvl <= 5
    ensures jitter in Jitters ==> -1 <= lvl - BaseLevel(score) <= 1
    ensures jitter == 0 ==> lvl == BaseLevel(score)
  {
    Clamp(1, 5, BaseLevel(score) + jitter)
  }

  /** More mastery never lowers the base level; each band of 20 points is one level. */
  lemma BaseLevelMonotone(lower: int, higher: int)
    requires lower <= higher
    ensures BaseLevel(lower) <= BaseLevel(higher)
    ensures 0 <= lower < 100 ==> BaseLevel(lower) == lower / 20 + 1
  {
  }

  // ---------------------------------------------------------------------
  // ordered_cats: sorted(CATS, key=score_by_cat, reverse=True), a stable sort
  // ---------------------------------------------------------------------

  /** A product of three weights of at least 1 is at least 1. */
  lemma ProductAtLeastOne(a: int, b: int, c: int)
    requires 1 <= a && 1 <= b && 1 <= c
    ensures 1 <= a * b * c
  {
    assert 1 <= a * b;
  }

  /** `score_by_cat`: affinity times need times mode weight; every category gets a score of at least 1. */
  function ScoreByCat(motive: Option<string>, chance: Option<string>,
                      scores: map<(int, string), CategoryScore>, uid: int, mode: string): (w: map<string, int>)
    ensures w.Keys == CatSet
    ensures forall c :: c in w ==> 1 <= w[c]
  {
    map c | c in CatSet :: CategoryWeight(motive, chance, scores, uid, mode, c)
  }

  function CategoryWeight(motive: Option<string>, chance: Option<string>,
                          scores: map<(int, string), CategoryScore>, uid: int, mode: string, c: string): (w: int)
    ensures 1 <= w
  {
    AffinityWeightBounds(motive, chance, c);
    ProductAtLeastOne(AffinityWeight(motive, chance, c), NeedWeight(ScoreOf(scores, uid, c)), ModeWeightOf(mode, c));
    AffinityWeight(motive, chance, c) * NeedWeight(ScoreOf(scores, uid, c)) * ModeWeightOf(mode, c)
  }

  /** `ordered_cats` */
  function OrderedCats(scoreByCat: map<string, int>): (ordered: seq<string>)
    requires CatSet <= scoreByCat.Keys
    ensures multiset(ordered) == multiset(Cats)
  {
    SortDesc(Cats, scoreByCat)
  }

  /** `ordered_cats` is a permutation of `CATS`, non-increasing in score, ties in `CATS` order. */
  lemma OrderedCatsSpec(scoreByCat: map<string, int>, v: int)
    requires CatSet <= scoreByCat.Keys
    ensures multiset(OrderedCats(scoreByCat)) == multiset(Cats)
    ensures NonIncreasing(OrderedCats(scoreByCat), scoreByCat)
    ensures WithKey(OrderedCats(scoreByCat), scoreByCat, v) == WithKey(Cats, scoreByCat, v)
  {
    SortDescNonIncreasing(Cats, scoreByCat);
    SortDescStable(Cats, scoreByCat, v);
  }
}
