/** The recommendation path of the AI service: `generateRecommendations`, which
    asks a chat-completion API and answers with a fixed parsed list, or with a
    fixed fallback list when anything in the request throws
    (src/services/aiService.js). */
module Recommendations {
  import opened Carbon

  /** One recommendation object: `impact` and `cost` are 'low' | 'medium' | 'high',
      `potentialReduction` is a percentage and `roi` a ratio. */
  datatype Recommendation = Recommendation(
    id: string,
    title: string,
    impact: Level,
    potentialReduction: real,
    cost: Level,
    timeframe: string,
    roi: real)

  /** What became of the request to the chat-completion API: it threw (network,
      HTTP or prompt error, or a reply with no `choices` or whose first choice
      has no `message`, which throws when read), or it answered with a list of
      choices, each given by the content of its message. */
  datatype ApiOutcome = Threw | Answered(choices: seq<string>)

  /** `response.data.choices[0].message.content` can be read: the request did
      not throw and the answer has a first choice. Reading it from an empty
      list of choices throws, inside the same `try`. */
  predicate Succeeded(outcome: ApiOutcome)
  {
    outcome.Answered? && |outcome.choices| > 0
  }

  /** The ids of a list of recommendations are pairwise distinct. */
  predicate DistinctIds(r: seq<Recommendation>)
  {
    forall i, j :: 0 <= i < j < |r| ==> r[i].id != r[j].id
  }

  /** Every recommendation promises a positive reduction and a positive return. */
  predicate Worthwhile(r: seq<Recommendation>)
  {
    forall i :: 0 <= i < |r| ==> r[i].potentialReduction > 0.0 && r[i].roi > 0.0
  }

  /** `parseRecommendations`: whatever the answer says, the same three
      recommendations. */
  function ParseRecommendations(content: string): (r: seq<Recommendation>)
    ensures |r| == 3 && DistinctIds(r) && Worthwhile(r)
  {
    [ Recommendation("rec_001", "Optimisation énergétique des bâtiments", High, 8.5, Medium, "6 mois", 2.3),
      Recommendation("rec_002", "Transition vers les énergies renouvelables", High, 12.0, High, "12 mois", 1.8),
      Recommendation("rec_003", "Optimisation des transports", Medium, 5.2, Low, "3 mois", 3.1) ]
  }

  /** `getFallbackRecommendations`: the two recommendations given when the API
      cannot be used. The company data it receives is not read. */
  function FallbackRecommendations(): (r: seq<Recommendation>)
    ensures |r| == 2 && DistinctIds(r) && Worthwhile(r)
  {
    [ Recommendation("rec_fallback_001", "Audit énergétique complet", High, 10.0, Medium, "3 mois", 2.5),
      Recommendation("rec_fallback_002", "Formation des équipes à l'éco-gestes", Medium, 3.0, Low, "1 mois", 4.0) ]
  }

  /** `generateRecommendations`: the parsed list when the content of the first
      choice could be read, the fallback list on any error. The answer is never
      empty, and its length tells which path was taken. */
  function GenerateRecommendations(outcome: ApiOutcome): (r: seq<Recommendation>)
    ensures |r| > 0 && DistinctIds(r) && Worthwhile(r)
    ensures |r| == 3 <==> Succeeded(outcome)
    ensures |r| == 2 <==> !Succeeded(outcome)
  {
    if Succeeded(outcome) then ParseRecommendations(outcome.choices[0])
    else FallbackRecommendations()
  }

  /** No id of the parsed list is an id of the fallback list, so the ids alone
      tell whether the API answered. */
  lemma {:induction false} ParsedAndFallbackIdsDisjoint(content: string)
    ensures forall a, b :: a in ParseRecommendations(content) && b in FallbackRecommendations() ==> a.id != b.id
  {
    var p, f := ParseRecommendations(content), FallbackRecommendations();
    forall a, b | a in p && b in f ensures a.id != b.id {
      assert b.id[4] == 'f';
      assert a.id[4] == '0';
    }
  }

  /** The first recommendation comes from the fallback list exactly when the
      API call failed. */
  lemma {:induction false} FirstIdRevealsFailure(outcome: ApiOutcome)
    ensures GenerateRecommendations(outcome)[0] in FallbackRecommendations() <==> !Succeeded(outcome)
  {
    var r := GenerateRecommendations(outcome);
    if Succeeded(outcome) {
      ParsedAndFallbackIdsDisjoint(outcome.choices[0]);
      assert r[0] in ParseRecommendations(outcome.choices[0]);
    }
  }
}
