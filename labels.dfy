/** The label side of the pipeline: the loop of `get_image_labels` that keeps only each
    label's description (main.py:34-40), and the `", "`-join of those descriptions that
    `normalize_data` embeds in its prompt (main.py:72-74). The vision call itself and the
    language-model call are external and are not modelled. */
module Labels {
  import opened Strings
  import opened Ingredients

  /** One entry of the vision service's `label_annotations`; the scores are discarded. */
  datatype EntityAnnotation = EntityAnnotation(description: string, score: real, topicality: real)

  /** The record `{'description': ...}` the application keeps per label. */
  datatype Label = Label(description: string)

  /** What `get_image_labels` returns for `annotations`: the specification of its loop. */
  function LabelsOf(annotations: seq<EntityAnnotation>): seq<Label> {
    seq(|annotations|, k requires 0 <= k < |annotations| => Label(annotations[k].description))
  }

  /** The formatting loop of `get_image_labels`: one record per annotation, in order, each
      holding that annotation's description. */
  method FormatLabels(annotations: seq<EntityAnnotation>) returns (formatted: seq<Label>)
    ensures |formatted| == |annotations|
    ensures forall k :: 0 <= k < |annotations| ==> formatted[k] == Label(annotations[k].description)
    ensures formatted == LabelsOf(annotations)
  {
    formatted := [];
    for i := 0 to |annotations|
      invariant |formatted| == i
      invariant forall k :: 0 <= k < i ==> formatted[k] == Label(annotations[k].description)
    {
      formatted := formatted + [Label(annotations[i].description)];
    }
  }

  /** `[item['description'] for item in data]`. */
  function Descriptions(data: seq<Label>): seq<string> {
    seq(|data|, k requires 0 <= k < |data| => data[k].description)
  }

  /** `", ".join(...)` of the descriptions: the list text sent to the language model. */
  function LabelText(data: seq<Label>): string {
    Join(Descriptions(data), ", ")
  }

  /** The label text loses nothing: when every description is a clean name, parsing the
      text gives back the descriptions, in order. */
  lemma LabelTextRoundTrip(data: seq<Label>)
    requires forall k :: 0 <= k < |data| ==> Clean(data[k].description)
    ensures ParseIngredientList(Text(LabelText(data))) == Descriptions(data)
  {
    ParseJoinRoundTrip(Descriptions(data));
  }

  /** The text `normalize_data` sends for what the vision service returned: the descriptions
      of the annotations, in order, joined with `", "`. */
  function AnnotationText(annotations: seq<EntityAnnotation>): string {
    LabelText(LabelsOf(annotations))
  }

  /** The detected labels reach the language model intact: when every description is a clean
      name, parsing the text sent gives back exactly the annotations' descriptions, in order. */
  lemma AnnotationTextRoundTrip(annotations: seq<EntityAnnotation>)
    requires forall k :: 0 <= k < |annotations| ==> Clean(annotations[k].description)
    ensures |ParseIngredientList(Text(AnnotationText(annotations)))| == |annotations|
    ensures forall k :: 0 <= k < |annotations| ==>
      ParseIngredientList(Text(AnnotationText(annotations)))[k] == annotations[k].description
  {
    LabelTextRoundTrip(LabelsOf(annotations));
  }

  /** Two detected labels reach the language model as `"<first>, <second>"`. */
  lemma AnnotationTextOfTwo(annotations: seq<EntityAnnotation>)
    requires |annotations| == 2
    ensures AnnotationText(annotations) == annotations[0].description + ", " + annotations[1].description
  {
    var ds := Descriptions(LabelsOf(annotations));
    assert ds == [annotations[0].description, annotations[1].description];
    assert ds[1..] == [annotations[1].description];
    assert Join(ds[1..], ", ") == annotations[1].description;
    assert AnnotationText(annotations) == Join(ds, ", ");
  }
}
