/** The recipe generator `generate_recipe_with_kb` (main.py:106-176): the ordered fallback
    over candidate models (main.py:133-167) and the best-effort extraction of the generated
    text (main.py:169-176). Each retrieve-and-generate call is external; its outcome for the
    i-th candidate is given as the i-th element of a sequence. */
module Recipes {
  import opened Wrappers
  import opened Strings

  /** The `output` entry of a response dictionary, with its optional `text`. */
  datatype Output = Output(text: Option<string>)

  /** A service response. A dictionary has three optional entries the extraction looks at;
      any other value is only rendered. `repr` is what `str(response)` gives. */
  datatype Response =
    | DictResponse(output: Option<Output>, responseText: Option<string>, generatedText: Option<string>, repr: string)
    | OtherResponse(repr: string)

  /** What one retrieve-and-generate call did: return a response, or raise an exception
      whose rendering `str(e)` is `error`. */
  datatype Outcome = Ok(response: Response) | Err(error: string)

  /** The request sent for one candidate: the ingredient text embedded in the prompt, the
      knowledge base and the model. */
  datatype RagRequest = RagRequest(ingredientText: string, knowledgeBaseId: string, modelArn: string)

  /** The candidate models, in the order they are tried. */
  const CandidateModelArns: seq<string> := [
    "arn:aws:bedrock:us-east-1::foundation-model/anthropic.claude-3-5-sonnet-20241022-v2:0",
    "arn:aws:bedrock:us-east-1::foundation-model/anthropic.claude-3-5-haiku-20241022-v1:0",
    "arn:aws:bedrock:us-east-1::foundation-model/meta.llama3-1-70b-instruct-v1:0",
    "arn:aws:bedrock:us-east-1::foundation-model/amazon.nova-pro-v1:0",
    "arn:aws:bedrock:us-east-1::foundation-model/mistral.mistral-large-2402-v1:0"
  ]

  const FailurePrefix := "Bedrock retrieve_and_generate failed across models. Last error: "

  /** Python truthiness of an optional text entry: present and non-empty. */
  predicate Truthy(v: Option<string>) {
    v.Some? && v.value != ""
  }

  /** The entries the extraction looks at, in order of preference: `output.text`,
      `responseText`, `generatedText`. A response that is not a dictionary has none. */
  function Preferences(r: Response): seq<Option<string>> {
    match r
    case OtherResponse(_) => []
    case DictResponse(out, rt, gt, _) =>
      [if out.Some? then out.value.text else None, rt, gt]
  }

  /** Position `k` holds the first truthy entry of `prefs`. */
  predicate FirstTruthyAt(prefs: seq<Option<string>>, k: int) {
    0 <= k < |prefs| && Truthy(prefs[k]) && forall j :: 0 <= j < k ==> !Truthy(prefs[j])
  }

  predicate NoneTruthy(prefs: seq<Option<string>>) {
    forall k :: 0 <= k < |prefs| ==> !Truthy(prefs[k])
  }

  /** The extraction of main.py:170-176: the first truthy entry in order of preference, or
      else the rendering of the whole response. */
  function ExtractText(r: Response): (t: string)
    ensures forall k :: FirstTruthyAt(Preferences(r), k) ==> t == Preferences(r)[k].value
    ensures NoneTruthy(Preferences(r)) ==> t == r.repr
  {
    match r
    case OtherResponse(repr) => repr
    case DictResponse(out, rt, gt, repr) =>
      var outputText := if out.Some? then out.value.text else None;
      var prefs := [outputText, rt, gt];
      assert Preferences(r) == prefs;
      var fallback := if Truthy(outputText) then outputText else if Truthy(rt) then rt else gt;
      assert forall k :: FirstTruthyAt(prefs, k) ==> prefs[k] == fallback by {
        forall k | FirstTruthyAt(prefs, k) ensures prefs[k] == fallback {
          if k > 0 { assert !Truthy(prefs[0]); }
          if k > 1 { assert !Truthy(prefs[1]); }
        }
      }
      assert NoneTruthy(prefs) ==> !Truthy(prefs[0]) && !Truthy(prefs[1]) && !Truthy(prefs[2]);
      if Truthy(fallback) then fallback.value else repr
  }

  /** A response whose only usable entry is `responseText` yields that text, not the
      rendering of the response. */
  lemma ResponseTextOnly(r: Response)
    requires r.DictResponse? && (r.output.None? || !Truthy(r.output.value.text))
    requires Truthy(r.responseText)
    ensures ExtractText(r) == r.responseText.value
  {
  }

  /** A response that is not a dictionary is only rendered. */
  lemma NonDictRendered(r: Response)
    requires r.OtherResponse?
    ensures ExtractText(r) == r.repr
  {
  }

  /** The position of the first successful outcome, or the number of outcomes when all fail. */
  function FirstSuccess(outcomes: seq<Outcome>): (k: nat)
    ensures k <= |outcomes|
    ensures forall j :: 0 <= j < k ==> outcomes[j].Err?
    ensures k < |outcomes| ==> outcomes[k].Ok?
  {
    if outcomes == [] then 0
    else if outcomes[0].Ok? then 0
    else 1 + FirstSuccess(outcomes[1..])
  }

  /** How many candidates are called: up to and including the first that succeeds. */
  function Invoked(outcomes: seq<Outcome>): (n: nat)
    requires |outcomes| > 0
    ensures 1 <= n <= |outcomes|
  {
    if FirstSuccess(outcomes) < |outcomes| then FirstSuccess(outcomes) + 1 else |outcomes|
  }

  /** The text the generator returns: the extracted text of the first success, or, when
      every candidate fails, the failure message embedding the last candidate's error. */
  function RecipeText(outcomes: seq<Outcome>): string
    requires |outcomes| > 0
  {
    var k := FirstSuccess(outcomes);
    if k < |outcomes| then ExtractText(outcomes[k].response)
    else FailurePrefix + outcomes[|outcomes| - 1].error
  }

  /** The request sent to the i-th candidate. */
  function RequestFor(ingredients: seq<string>, knowledgeBaseId: string, i: nat): RagRequest
    requires i < |CandidateModelArns|
  {
    RagRequest(Join(ingredients, ", "), knowledgeBaseId, CandidateModelArns[i])
  }

  /** A success is determined by its position: when candidate `i` is the first to succeed,
      the result is the text extracted from its response and exactly `i + 1` candidates run. */
  lemma FirstSuccessAt(outcomes: seq<Outcome>, i: nat)
    requires i < |outcomes| && outcomes[i].Ok?
    requires forall j :: 0 <= j < i ==> outcomes[j].Err?
    ensures FirstSuccess(outcomes) == i
    ensures Invoked(outcomes) == i + 1
    ensures RecipeText(outcomes) == ExtractText(outcomes[i].response)
  {
  }

  /** When every candidate fails, all are called and the result is the failure message
      with the last error. */
  lemma {:induction false} AllFail(outcomes: seq<Outcome>)
    requires |outcomes| > 0
    requires forall j :: 0 <= j < |outcomes| ==> outcomes[j].Err?
    ensures FirstSuccess(outcomes) == |outcomes|
    ensures Invoked(outcomes) == |outcomes|
    ensures RecipeText(outcomes) == FailurePrefix + outcomes[|outcomes| - 1].error
  {
    if |outcomes| > 1 {
      AllFail(outcomes[1..]);
    }
  }

  /** `generate_recipe_with_kb` for one request: the candidates are called in order and the
      loop stops at the first success. Exactly `Invoked(outcomes)` candidates are called, each
      with the ingredient text and the knowledge base; the result is the text extracted from
      the first success or, when all fail, the failure message with the last error. */
  method GenerateRecipeWithKb(ingredients: seq<string>, knowledgeBaseId: string, outcomes: seq<Outcome>)
    returns (text: string, calls: seq<RagRequest>)
    requires |outcomes| == |CandidateModelArns|
    ensures |calls| == Invoked(outcomes)
    ensures forall j :: 0 <= j < |calls| ==> calls[j] == RequestFor(ingredients, knowledgeBaseId, j)
    ensures forall j :: 0 <= j < |calls| - 1 ==> outcomes[j].Err?
    ensures outcomes[|calls| - 1].Ok? ==> text == ExtractText(outcomes[|calls| - 1].response)
    ensures outcomes[|calls| - 1].Err? ==> |calls| == |outcomes| && text == FailurePrefix + outcomes[|calls| - 1].error
    ensures text == RecipeText(outcomes)
  {
    var ingredientText := Join(ingredients, ", ");
    var lastError: Option<string> := None;
    var response: Option<Response> := None;
    calls := [];
    var i := 0;
    // The source's `break` on the first success is the guard's `response.None?`.
    while i < |CandidateModelArns| && response.None?
      invariant 0 <= i <= |CandidateModelArns|
      invariant |calls| == i
      invariant forall j :: 0 <= j < i ==> calls[j] == RequestFor(ingredients, knowledgeBaseId, j)
      invariant response.None? ==> forall j :: 0 <= j < i ==> outcomes[j].Err?
      invariant response.None? ==> lastError == if i == 0 then None else Some(outcomes[i - 1].error)
      invariant response.Some? ==> 0 < i && outcomes[i - 1] == Ok(response.value)
      invariant response.Some? ==> forall j :: 0 <= j < i - 1 ==> outcomes[j].Err?
    {
      calls := calls + [RagRequest(ingredientText, knowledgeBaseId, CandidateModelArns[i])];
      match outcomes[i] {
        case Ok(r) =>
          response := Some(r);
        case Err(e) =>
          lastError := Some(e);
          response := None;
      }
      i := i + 1;
    }
    if response.None? {
      AllFail(outcomes);
      text := FailurePrefix + lastError.value;
    } else {
      FirstSuccessAt(outcomes, |calls| - 1);
      text := ExtractText(response.value);
    }
  }
}
