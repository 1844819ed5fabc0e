/**
 * The rule-based feedback on a reflection answer: a tone read from the
 * word count and a few German phrases, one fixed text per tone, and the
 * token score of an answer.
 */
module FeedbackEngine {
  import opened Text

  /** The tones `analyze_answer` returns: "kurz", "unsicher", "reflektiert", "mittel". */
  datatype Tone = Kurz | Unsicher | Reflektiert | Mittel

  const UncertainPhrases: seq<string> := ["weiß nicht", "keine ahnung", "bin mir nicht sicher"]
  const ReflectivePhrases: seq<string> := ["ich denke", "mir ist aufgefallen", "ich habe erkannt"]
  const DepthPhrases: seq<string> := ["ich glaube", "was ich spüre", "wenn ich ehrlich bin", "tief in mir"]

  /** `len(answer.split())` */
  function WordCount(answer: string): nat {
    |Words(answer)|
  }

  /**
   * `analyze_answer(answer)`: fewer than ten words is short whatever they
   * say; otherwise uncertainty is looked for before reflection.
   */
  function AnalyzeAnswer(answer: string): (t: Tone)
    ensures t == Kurz <==> WordCount(answer) < 10
    ensures t == Unsicher <==> WordCount(answer) >= 10 && ContainsAny(Lower(answer), UncertainPhrases)
    ensures t == Reflektiert <==>
      WordCount(answer) >= 10 && !ContainsAny(Lower(answer), UncertainPhrases) && ContainsAny(Lower(answer), ReflectivePhrases)
    ensures t == Mittel <==>
      WordCount(answer) >= 10 && !ContainsAny(Lower(answer), UncertainPhrases) && !ContainsAny(Lower(answer), ReflectivePhrases)
  {
    var lowered := Lower(answer);
    WordCountLower(answer);
    if |Words(lowered)| < 10 then Kurz
    else if ContainsAny(lowered, UncertainPhrases) then Unsicher
    else if ContainsAny(lowered, ReflectivePhrases) then Reflektiert
    else Mittel
  }

  /** The tone does not depend on letter case. */
  lemma ToneIgnoresCase(answer: string)
    ensures AnalyzeAnswer(Lower(answer)) == AnalyzeAnswer(answer)
  {
    LowerIdempotent(answer);
    WordCountLower(answer);
  }

  const KurzText: string :=
    "Du hast dich auf den ersten Schritt eingelassen, und das zählt. "
    + "Auch wenn die Antwort noch knapp ausfällt, zeigt sie Bereitschaft zur Auseinandersetzung. "
    + "Vielleicht ist es hilfreich, dir noch einen Moment Zeit zu nehmen und tiefer in dich hineinzuhören. "
    + "Was genau beschäftigt dich, wenn du die Frage erneut liest? "
    + "Gerade unter der Oberfläche liegt oft der spannendste Gedanke verborgen. "
    + "Vertrau dir – du darfst mutiger werden."

  const UnsicherText: string :=
    "Unsicherheit gehört zum Prozess der Selbstreflexion dazu – und sie ist ein Zeichen von Mut. "
    + "Deine Antwort wirkt vorsichtig tastend, als würdest du dich langsam herantasten. "
    + "Vielleicht spürst du innerlich, dass da mehr ist, aber du bist noch nicht bereit, es ganz auszusprechen. "
    + "Diese Spannung ist wertvoll: Sie zeigt, dass du dich ernsthaft mit dir selbst beschäftigst. "
    + "Nimm diese Unsicherheit als Einladung – nicht als Schwäche. "
    + "Versuch es morgen nochmal, mit einem kleinen Schritt mehr Offenheit."

  const ReflektiertText: string :=
    "Deine Antwort wirkt durchdacht und zeigt, dass du bereits aktiv mit dir arbeitest. "
    + "Du formulierst ehrlich, differenziert und mutig – das ist eine echte Qualität. "
    + "Besonders wertvoll ist, dass du dir selbst Fragen stellst, anstatt dich mit einfachen Antworten zufriedenzugeben. "
    + "Vielleicht gibt es dennoch einen Bereich, dem du bisher ausweichst? "
    + "Wirkliche Tiefe beginnt dort, wo man sich selbst überrascht. "
    + "Bleib dran – deine Gedanken haben Substanz."

  const MittelText: string :=
    "Deine Antwort enthält Ansätze von Tiefe – ein guter Startpunkt. "
    + "An manchen Stellen wirkt sie noch zurückhaltend oder etwas allgemein. "
    + "Das kann ein Zeichen dafür sein, dass du dir Zeit lässt, dich zu öffnen – was völlig in Ordnung ist. "
    + "Stell dir vor, du würdest diesen Gedanken einem guten Freund erzählen: Was würdest du noch ergänzen? "
    + "Manchmal helfen kleine Details, um die eigene Haltung besser zu verstehen. "
    + "Bleib neugierig auf dich selbst – genau dort beginnt Veränderung."

  /** The fixed text of each tone. */
  function FeedbackText(t: Tone): string {
    match t
    case Kurz => KurzText
    case Unsicher => UnsicherText
    case Reflektiert => ReflektiertText
    case Mittel => MittelText
  }

  lemma KurzLength() ensures |KurzText| == 426 {}
  lemma UnsicherLength() ensures |UnsicherText| == 498 {}
  lemma ReflektiertLength() ensures |ReflektiertText| == 448 {}
  lemma MittelLength() ensures |MittelText| == 476 {}

  /** No two tones share a text: the four texts differ in length. */
  lemma FeedbackTextsDistinct(t1: Tone, t2: Tone)
    requires t1 != t2
    ensures FeedbackText(t1) != FeedbackText(t2)
  {
    KurzLength();
    UnsicherLength();
    ReflektiertLength();
    MittelLength();
  }

  /** `generate_feedback(answer)`: the text of the answer's tone. */
  function GenerateFeedback(answer: string): (text: string)
    ensures WordCount(answer) < 10 ==> text == KurzText
  {
    FeedbackText(AnalyzeAnswer(answer))
  }

  /** Two answers get the same feedback exactly when they have the same tone. */
  lemma FeedbackFollowsTone(a: string, b: string)
    ensures GenerateFeedback(a) == GenerateFeedback(b) <==> AnalyzeAnswer(a) == AnalyzeAnswer(b)
  {
    if AnalyzeAnswer(a) != AnalyzeAnswer(b) {
      FeedbackTextsDistinct(AnalyzeAnswer(a), AnalyzeAnswer(b));
    }
  }

  /**
   * `evaluate_tokens(answer)`: one point for more than 20 words, one more
   * for more than 50, two for a depth phrase, capped at 5.
   */
  function EvaluateTokens(answer: string): (n: int)
    ensures 0 <= n <= 4
    ensures n == 0 <==> WordCount(answer) <= 20 && !ContainsAny(Lower(answer), DepthPhrases)
    ensures n % 2 == 1 <==> 20 < WordCount(answer) <= 50
    ensures n >= 2 <==> WordCount(answer) > 50 || ContainsAny(Lower(answer), DepthPhrases)
    ensures n == 4 <==> WordCount(answer) > 50 && ContainsAny(Lower(answer), DepthPhrases)
  {
    var words := WordCount(answer);
    var score := (if words > 20 then 1 else 0) + (if words > 50 then 1 else 0)
      + (if ContainsAny(Lower(answer), DepthPhrases) then 2 else 0);
    if score <= 5 then score else 5
  }

  /** The token score does not depend on letter case. */
  lemma TokensIgnoreCase(answer: string)
    ensures EvaluateTokens(Lower(answer)) == EvaluateTokens(answer)
  {
    LowerIdempotent(answer);
    WordCountLower(answer);
  }

  /** A longer answer with at least the same depth never scores fewer tokens. */
  lemma TokensMonotone(a: string, b: string)
    requires WordCount(a) <= WordCount(b)
    requires ContainsAny(Lower(a), DepthPhrases) ==> ContainsAny(Lower(b), DepthPhrases)
    ensures EvaluateTokens(a) <= EvaluateTokens(b)
  {
  }
}
