/**
 * The body of `predict_career` once the request is parsed and the artifacts
 * are loaded: assemble the feature row, ask the classifier for class
 * probabilities, rank the top three careers and attach to each its catalog
 * details and the (shared) explanation.
 */
module Prediction {
  import opened Wrappers
  import opened FeatureAssembler
  import opened Ranking
  import opened Explanations
  import opened CareerCatalog

  /** The loaded artifacts other than the classifier: input encoders, target classes and training schema. */
  datatype ModelBank = ModelBank(encoders: Encoders, targetClasses: seq<string>, featureNames: seq<string>)

  /** One entry of the response's `recommendations` list; `probability` is what `matchScore` is computed from. */
  datatype Recommendation = Recommendation(
    title: string,
    probability: real,
    details: CareerDetails,
    explanation: Explanation)

  /** The exceptions the handler turns into a 500 response. */
  datatype PredictError = AssemblyFailed(cause: AssemblyError) | UnknownClassIndex

  /** Each ranked career with its catalog details and the shared explanation, in rank order. */
  function Attach(top: seq<Ranked>, catalog: seq<CareerRow>, decode: string -> Option<Json>, explanation: Explanation)
    : (r: seq<Recommendation>)
    ensures |r| == |top|
    ensures forall i :: 0 <= i < |r| ==>
      && r[i].title == top[i].title
      && r[i].probability == top[i].probability
      && r[i].details == GetCareerDetails(top[i].title, catalog, decode)
      && r[i].explanation == explanation
  {
    seq(|top|, i requires 0 <= i < |top| =>
      Recommendation(top[i].title, top[i].probability, GetCareerDetails(top[i].title, catalog, decode), explanation))
  }

  /**
   * The prediction pipeline. It fails with the assembler's error exactly when
   * assembly fails, and otherwise fails only when a selected index has no
   * target class, which cannot happen when the classifier reports no more
   * classes than the target encoder knows. `topIndices` are the ranked class
   * indices (empty when assembly fails): a valid top-3 of the probabilities.
   * On success recommendation i names the class at `topIndices[i]` with that
   * class's probability, carries the catalog details of its own title, and
   * all carry the same explanation.
   */
  method PredictCareer(
    data: UserInput,
    bank: ModelBank,
    classifier: Row -> seq<real>,
    catalog: seq<CareerRow>,
    decode: string -> Option<Json>)
    returns (topIndices: seq<nat>, r: Result<seq<Recommendation>, PredictError>)
    ensures PreprocessInput(data, bank.encoders, bank.featureNames).Failure? ==>
      && topIndices == []
      && r == Failure(AssemblyFailed(PreprocessInput(data, bank.encoders, bank.featureNames).error))
    ensures r.Failure? && r.error.AssemblyFailed? ==> PreprocessInput(data, bank.encoders, bank.featureNames).Failure?
    ensures PreprocessInput(data, bank.encoders, bank.featureNames).Success? ==>
      var p := classifier(PreprocessInput(data, bank.encoders, bank.featureNames).value);
      && IsTopK(p, TopN, topIndices)
      && (r.Success? <==> forall i :: 0 <= i < |topIndices| ==> topIndices[i] < |bank.targetClasses|)
      && (|p| <= |bank.targetClasses| ==> r.Success?)
      && (r.Failure? ==> r.error == UnknownClassIndex)
      && (r.Success? ==>
            && |r.value| == |topIndices|
            && forall i :: 0 <= i < |r.value| ==>
                 && r.value[i].title == bank.targetClasses[topIndices[i]]
                 && r.value[i].probability == p[topIndices[i]])
    ensures r.Success? ==> forall i :: 0 <= i < |r.value| ==>
      && r.value[i].details == GetCareerDetails(r.value[i].title, catalog, decode)
      && r.value[i].explanation == Explain(data, bank.encoders)
  {
    match PreprocessInput(data, bank.encoders, bank.featureNames) {
      case Failure(e) =>
        topIndices := [];
        r := Failure(AssemblyFailed(e));
      case Success(x) =>
        var p := classifier(x);
        var ranked;
        topIndices, ranked := RankCareers(p, bank.targetClasses);
        match ranked {
          case Failure(_) =>
            r := Failure(UnknownClassIndex);
          case Success(top) =>
            r := Success(Attach(top, catalog, decode, Explain(data, bank.encoders)));
        }
    }
  }

  /**
   * What a successful prediction promises about the probabilities: there are
   * min(3, number of probabilities) recommendations, most probable first, the
   * first is a most probable class, and no class left out is more probable
   * than any recommended one.
   */
  lemma RecommendationsRanked(p: seq<real>, topIndices: seq<nat>, recs: seq<Recommendation>)
    requires IsTopK(p, TopN, topIndices)
    requires |recs| == |topIndices|
    requires forall i :: 0 <= i < |recs| ==> recs[i].probability == p[topIndices[i]]
    ensures |recs| == Min(TopN, |p|)
    ensures forall i, j :: 0 <= i < j < |recs| ==> recs[i].probability >= recs[j].probability
    ensures |recs| > 0 ==> forall k :: 0 <= k < |p| ==> p[k] <= recs[0].probability
    ensures forall k, i :: 0 <= k < |p| && k !in topIndices && 0 <= i < |recs| ==> p[k] <= recs[i].probability
  {
    if |topIndices| > 0 {
      TopIsMax(p, TopN, topIndices);
    }
  }
}
