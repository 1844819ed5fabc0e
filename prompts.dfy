/**
 * The fixed prompt catalog: per mode a handful of sub-categories, each
 * with its parent category and three questions, and the random draw of a
 * prompt from it.
 */
module Prompts {

  /** One sub-category of the catalog: its parent category and its questions. */
  datatype Subcategory = Subcategory(parent: string, questions: seq<string>)

  /** `PROMPT_CATEGORIES`, keyed by mode, then by sub-category. */
  const PromptCategories: map<string, map<string, Subcategory>> := map[
    "morning" := map[
      "Selbstwert" := Subcategory("Selbstbild", [
        "Was macht dich heute wertvoll – unabhängig von Leistung?",
        "Wie würdest du dich heute selbst anerkennen?",
        "Was darfst du dir heute erlauben?"]),
      "Grenzen setzen" := Subcategory("Beziehungen", [
        "Wo darfst du heute klarer Nein sagen?",
        "Wie schützt du heute deine Energie?",
        "Was willst du heute nicht mehr tolerieren?"]),
      "Mut zeigen" := Subcategory("Kreativität & Vision", [
        "Was würdest du tun, wenn du mutiger wärst?",
        "Was wäre heute ein mutiger Schritt für dich?",
        "Wovor hast du Respekt – und willst es trotzdem tun?"]),
      "Fokus & Entscheidung" := Subcategory("Entscheidungsmuster", [
        "Was hat heute Priorität für dich?",
        "Welche Entscheidung wirst du heute bewusst treffen?",
        "Wo darfst du dich heute nicht ablenken lassen?"])],
    "evening" := map[
      "Selbstreflexion" := Subcategory("Selbstbild", [
        "Was hast du heute über dich selbst erkannt?",
        "Wann warst du heute ehrlich zu dir?",
        "Wo hast du dich heute selbst überrascht?"]),
      "Emotionale Achtsamkeit" := Subcategory("Emotionale Intelligenz", [
        "Wie bist du heute mit deinen Gefühlen umgegangen?",
        "Gab es heute einen Moment echter Verbindung?",
        "Wie gut hast du dich selbst verstanden gefühlt?"]),
      "Perspektivwechsel" := Subcategory("Perspektivwechsel", [
        "Was würdest du aus heutiger Sicht anders machen?",
        "Wie könnte jemand anderes deinen Tag deuten?",
        "Was hat dich heute deinen Blickwinkel verändern lassen?"]),
      "Zukunft & Mut" := Subcategory("Kreativität & Vision", [
        "Was traust du dir morgen zu?",
        "Was hast du heute nicht gesagt, obwohl du es wolltest?",
        "Was wäre ein mutiger Schritt, den du morgen tun könntest?"])]]

  /** What `get_question` returns or raises. */
  datatype PromptResult =
    | Prompt(parent: string, subcategory: string, question: string)
    | ValueError(message: string)

  const ModeError: string := "Mode must be 'morning' or 'evening'"

  /** The catalog has exactly the two modes. */
  lemma CatalogModes()
    ensures PromptCategories.Keys == {"morning", "evening"}
  {
  }

  lemma MorningSubcategories()
    ensures |PromptCategories["morning"]| == 4
  {
    assert PromptCategories["morning"].Keys == {"Selbstwert", "Grenzen setzen", "Mut zeigen", "Fokus & Entscheidung"};
  }

  lemma EveningSubcategories()
    ensures |PromptCategories["evening"]| == 4
  {
    assert PromptCategories["evening"].Keys == {"Selbstreflexion", "Emotionale Achtsamkeit", "Perspektivwechsel", "Zukunft & Mut"};
  }

  /** Each mode offers four sub-categories. */
  lemma SubcategoryCounts(mode: string)
    requires mode in PromptCategories
    ensures |PromptCategories[mode]| == 4
  {
    CatalogModes();
    if mode == "morning" {
      MorningSubcategories();
    } else {
      EveningSubcategories();
    }
  }

  /** Each sub-category holds three questions. */
  lemma QuestionCounts(mode: string, sub: string)
    requires mode in PromptCategories && sub in PromptCategories[mode]
    ensures |PromptCategories[mode][sub].questions| == 3
  {
  }

  /**
   * `get_question(mode)`: a `ValueError` for a mode other than morning and
   * evening, else a random sub-category of the mode and a random question of it.
   */
  method GetQuestion(mode: string) returns (r: PromptResult)
    ensures r.ValueError? <==> mode != "morning" && mode != "evening"
    ensures r.ValueError? ==> r.message == ModeError
    ensures r.Prompt? ==> mode in PromptCategories && r.subcategory in PromptCategories[mode]
    ensures r.Prompt? ==> r.parent == PromptCategories[mode][r.subcategory].parent
    ensures r.Prompt? ==> r.question in PromptCategories[mode][r.subcategory].questions
  {
    CatalogModes();
    if mode !in PromptCategories {
      return ValueError(ModeError);
    }
    var subs := PromptCategories[mode];
    SubcategoryCounts(mode);
    assert subs.Keys != {};
    var sub :| sub in subs;
    var data := subs[sub];
    QuestionCounts(mode, sub);
    assert data.questions[0] in data.questions;
    var question :| question in data.questions;
    r := Prompt(data.parent, sub, question);
  }
}
