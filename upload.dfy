/** The `upload` handler (main.py:192-216): validate the upload, then run the stages
    vision labelling, normalisation, parsing and recipe generation in strict sequence.
    The external services are given as their outcomes; the handler's record of which of
    them it called is returned, so that what runs, in which order and with which
    arguments can be stated. */
module Upload {
  import opened Wrappers
  import opened Ingredients
  import opened FileGate
  import opened Labels
  import opened Recipes

  /** An external call the handler makes. */
  datatype Call =
    | DetectLabels
    | Normalize(labelText: string)
    | Generate(request: RagRequest)

  /** What the user gets back: a redirect with a flashed message, the rendered page with
      the ingredients and the recipe text, or an unhandled exception from an upstream stage. */
  datatype Page =
    | Redirect(flash: string)
    | Rendered(ingredients: seq<string>, recipeText: string)
    | ServerError(error: string)

  /** The calls of the generation stage, one per candidate request, in order. */
  function GenerateCalls(requests: seq<RagRequest>): seq<Call> {
    seq(|requests|, j requires 0 <= j < |requests| => Generate(requests[j]))
  }

  /** The stages after a successful validation (main.py:207-213). A failure of labelling or
      normalisation ends the request with that error after one or two calls; otherwise the
      generator runs on exactly the parsed ingredients, and never fails the request. */
  method RunStages(vision: Result<seq<EntityAnnotation>>, normalized: Result<Value>,
                   knowledgeBaseId: string, outcomes: seq<Outcome>)
    returns (page: Page, calls: seq<Call>)
    requires |outcomes| == |CandidateModelArns|
    ensures |calls| >= 1 && calls[0] == DetectLabels
    ensures vision.Failure? ==> page == ServerError(vision.error) && |calls| == 1
    ensures vision.Success? ==>
      |calls| >= 2 && calls[1] == Normalize(AnnotationText(vision.value))
    ensures vision.Success? && normalized.Failure? ==> page == ServerError(normalized.error) && |calls| == 2
    ensures vision.Success? && normalized.Success? ==>
      && page == Rendered(ParseIngredientList(normalized.value), RecipeText(outcomes))
      && |calls| == 2 + Invoked(outcomes)
      && forall j :: 2 <= j < |calls| ==> calls[j] == Generate(RequestFor(page.ingredients, knowledgeBaseId, j - 2))
  {
    if vision.Failure? {
      page, calls := ServerError(vision.error), [DetectLabels];
    } else {
      var labels := FormatLabels(vision.value);
      assert LabelText(labels) == AnnotationText(vision.value);
      var prefix := [DetectLabels, Normalize(LabelText(labels))];
      if normalized.Failure? {
        page, calls := ServerError(normalized.error), prefix;
      } else {
        var ingredients := ParseIngredientList(normalized.value);
        var recipeText, requests := GenerateRecipeWithKb(ingredients, knowledgeBaseId, outcomes);
        page, calls := Rendered(ingredients, recipeText), prefix + GenerateCalls(requests);
      }
    }
  }

  /** The `upload` handler. A rejected upload calls nothing and redirects with its message;
      an accepted one runs the stages. */
  method HandleUpload(part: FilePart, vision: Result<seq<EntityAnnotation>>, normalized: Result<Value>,
                      knowledgeBaseId: string, outcomes: seq<Outcome>)
    returns (page: Page, calls: seq<Call>)
    requires |outcomes| == |CandidateModelArns|
    ensures CheckUpload(part).Reject? ==> page == Redirect(CheckUpload(part).message) && calls == []
    ensures CheckUpload(part).RunPipeline? ==> |calls| >= 1 && calls[0] == DetectLabels
    ensures CheckUpload(part).RunPipeline? && vision.Failure? ==> page == ServerError(vision.error) && |calls| == 1
    ensures CheckUpload(part).RunPipeline? && vision.Success? ==>
      |calls| >= 2 && calls[1] == Normalize(AnnotationText(vision.value))
    ensures CheckUpload(part).RunPipeline? && vision.Success? && normalized.Failure? ==>
      page == ServerError(normalized.error) && |calls| == 2
    ensures CheckUpload(part).RunPipeline? && vision.Success? && normalized.Success? ==>
      && page == Rendered(ParseIngredientList(normalized.value), RecipeText(outcomes))
      && |calls| == 2 + Invoked(outcomes)
      && forall j :: 2 <= j < |calls| ==> calls[j] == Generate(RequestFor(page.ingredients, knowledgeBaseId, j - 2))
  {
    var decision := CheckUpload(part);
    if decision.Reject? {
      page, calls := Redirect(decision.message), [];
    } else {
      page, calls := RunStages(vision, normalized, knowledgeBaseId, outcomes);
    }
  }

  /** End to end through a single clean item: when the normaliser answers with one name, the
      parsed ingredients are exactly that name and every generator request carries exactly it
      as the ingredient text. */
  lemma SingleIngredientRequest(x: string, knowledgeBaseId: string, i: nat)
    requires Clean(x) && i < |CandidateModelArns|
    ensures ParseIngredientList(Text(x)) == [x]
    ensures RequestFor(ParseIngredientList(Text(x)), knowledgeBaseId, i).ingredientText == x
  {
    ParseItem(x);
  }

  /** A request whose normaliser answers with one clean name: the page lists exactly that
      name and every generator request carries exactly it as its ingredient text. */
  method OneIngredientRequest(part: FilePart, annotations: seq<EntityAnnotation>, x: string,
                              knowledgeBaseId: string, outcomes: seq<Outcome>)
    returns (page: Page, calls: seq<Call>)
    requires CheckUpload(part).RunPipeline? && Clean(x)
    requires |outcomes| == |CandidateModelArns|
    ensures page == Rendered([x], RecipeText(outcomes))
    ensures |calls| == 2 + Invoked(outcomes)
    ensures calls[0] == DetectLabels && calls[1] == Normalize(AnnotationText(annotations))
    ensures forall j :: 2 <= j < |calls| ==> calls[j].Generate? && calls[j].request.ingredientText == x
  {
    page, calls := HandleUpload(part, Success(annotations), Success(Text(x)), knowledgeBaseId, outcomes);
    SingleIngredientRequest(x, knowledgeBaseId, 0);
    forall j | 2 <= j < |calls|
      ensures calls[j].Generate? && calls[j].request.ingredientText == x
    {
      assert calls[j] == Generate(RequestFor(page.ingredients, knowledgeBaseId, j - 2));
      SingleIngredientRequest(x, knowledgeBaseId, j - 2);
    }
  }

  /** The request of main.py:207-211 on a photo of a tomato and a chair: the normaliser keeps
      only `Tomato`, so the page lists exactly `Tomato` and every generator request carries
      exactly `Tomato` as its ingredient text. */
  method TomatoChairRequest(knowledgeBaseId: string, outcomes: seq<Outcome>)
    returns (page: Page, calls: seq<Call>)
    requires |outcomes| == |CandidateModelArns|
    ensures page == Rendered(["Tomato"], RecipeText(outcomes))
    ensures |calls| == 2 + Invoked(outcomes)
    ensures calls[0] == DetectLabels && calls[1] == Normalize("Tomato, Chair")
    ensures forall j :: 2 <= j < |calls| ==> calls[j].Generate? && calls[j].request.ingredientText == "Tomato"
  {
    var annotations := [EntityAnnotation("Tomato", 0.97, 0.97), EntityAnnotation("Chair", 0.91, 0.91)];
    PhotoJpgAccepted();
    AnnotationTextOfTwo(annotations);
    assert "Tomato" + ", " + "Chair" == "Tomato, Chair";
    assert Clean("Tomato");
    page, calls := OneIngredientRequest(Part("photo.jpg"), annotations, "Tomato", knowledgeBaseId, outcomes);
  }
}
