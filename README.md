# RAGRecipes: a verified model of the upload pipeline

RAGRecipes is a small Flask application. A user uploads a photo of ingredients. The
application asks a vision service for labels, asks a language model to keep only the
edible ones as a comma-separated list, parses that list, and asks a retrieval-augmented
generation service for a recipe. This project models the logic that connects those
external services, all in `main.py`:

- the ingredient parser `parse_ingredient_list` (`ingredients.dfy`);
- the `", "`-joins that turn lists into prompt text, and the label-formatting loop of
  `get_image_labels` (`labels.dfy`);
- the extension check `allowed_file` and the validation branches of `upload` (`filegate.dfy`);
- the ordered fallback over candidate models in `generate_recipe_with_kb`, and the
  best-effort extraction of the generated text (`recipes.dfy`);
- the `upload` handler, which runs the stages in sequence (`upload.dfy`).

The Python string operations these use are in `strings.dfy`: `str.isspace` (the exact set of
29 code points Python treats as whitespace), `strip()`, `split(',')`, `", ".join` and
`lower()`. `wrappers.dfy` holds `Option` and `Result`.

The model does not call the external services. Each call is an input to the model: the
labels the vision service returns, or the exception it raises; the text the language model
returns, or its exception; and, for each candidate model, the response that
retrieve-and-generate returns, or the error it raises. The methods also return the calls
they make, in order. That makes it possible to state which calls happen and with which
arguments: a rejected upload calls nothing; the generator stops at the first success;
every request carries exactly the parsed ingredients.

Main results:

- Parsing never yields an empty, whitespace-padded or comma-containing item (`ParseClean`).
- Parsing inverts the `", "`-join of clean items (`ParseJoinRoundTrip`), so it is idempotent
  through the join (`ParseIdempotent`).
- Parsing distributes over commas (`ParseConcat`). Together with the one-piece case
  (`ParseNoComma`), this determines the parser on every text.
- `allowed_file` holds exactly when the lower-cased text after the last dot is `png`, `jpg` or
  `jpeg` (`AllowedFileIff`).
- The generator calls the candidates in order and stops at the first success. It returns that
  candidate's extracted text or, when all five fail, a message with the last error
  (`GenerateRecipeWithKb`, `FirstSuccessAt`, `AllFail`).
- The handler's outcome and call log are fixed for every combination of upload, service
  results and failures (`HandleUpload`).

## Model

| member | source | states |
|---|---|---|
| `Strings.TrimLeft` | main.py:104 | the result is empty exactly when the input is all whitespace, and otherwise starts with a non-space |
| `Strings.TrimRight` | main.py:104 | the result is empty exactly when the input is all whitespace; otherwise it ends with a non-space and keeps the first character |
| `Strings.TrimLeftSuffix` | main.py:104 | the left-trimmed text is a suffix of the input, and what it drops is all whitespace |
| `Strings.TrimRightPrefix` | main.py:104 | the right-trimmed text is a prefix of the input, and what it drops is all whitespace |
| `Strings.Strip` | main.py:104 | `strip()` leaves no whitespace at either end, and gives the empty string exactly for whitespace-only input |
| `Strings.StripSlice` | main.py:104 | `strip()` gives a contiguous slice of the input, and only whitespace lies on either side of it |
| `Strings.StripChars` | main.py:104 | every character of the stripped text occurs in the input (so a comma-free piece stays comma-free) |
| `Strings.StripLeadingSpace` | main.py:104 | a leading whitespace character never changes the stripped text |
| `Strings.StripTrimmed` | main.py:104 | `strip()` leaves text with no whitespace at its ends unchanged |
| `Strings.Split` | main.py:104 | `split(',')` always yields at least one piece, even on the empty string |
| `Strings.SplitPieces` | main.py:104 | no piece of `split(sep)` contains the separator |
| `Strings.JoinSplit` | main.py:104 | joining the pieces of `split(sep)` with `sep` gives back the text |
| `Strings.SplitNoSep` | main.py:104 | a text without the separator splits into itself alone |
| `Strings.SplitConcat` | main.py:104 | splitting `a + sep + b` gives the pieces of `a` followed by the pieces of `b` |
| `Strings.SplitJoin` | main.py:74 | splitting the `sep`-join of separator-free pieces gives back the pieces |
| `Strings.IsSpace` | main.py:104 | the characters `strip()` removes: exactly the 29 code points for which Python's `str.isspace()` holds |
| `Strings.Join` | main.py:74 | `sep.join(xs)`: `JoinSplit` and `SplitJoin` show it is the inverse of `split` on separator-free pieces |
| `Strings.Lower` | main.py:186 | `lower()` keeps the length, leaves no upper-case ASCII letter, and keeps every character that is not one |
| `Strings.LowerIdempotent` | main.py:186 | lowering twice is lowering once |
| `Strings.LowerToWord` | main.py:186 | lowering gives a lower-case word exactly for the spellings of that word with any letters in upper case |
| `Ingredients.KeepPiece` | main.py:104 | one step of the comprehension: a piece is dropped exactly when it is empty or whitespace-only, and is otherwise kept as its stripped form |
| `Ingredients.Keep` | main.py:104 | the comprehension over all pieces keeps at most one item per piece; `KeepClean` and `KeepConcat` give its meaning |
| `Ingredients.ParseIngredientList` | main.py:100-104 | a non-text argument gives `[]`; a text gives at most as many items as it has comma-separated pieces |
| `Ingredients.ParseClean` | main.py:104 | every item is non-empty, not whitespace-only, has no surrounding whitespace and no comma |
| `Ingredients.ParseConcat` | main.py:104 | parsing `a + "," + b` gives the items of `a` followed by those of `b`, in order |
| `Ingredients.ParseNoComma` | main.py:104 | a comma-free text gives its stripped form, or nothing when it is whitespace-only |
| `Ingredients.ParseLeadingSpace` | main.py:104 | leading whitespace never changes the parsed list |
| `Ingredients.ParseItem` | main.py:104 | a clean item parses to itself alone |
| `Ingredients.ParseItemThenRest` | main.py:104 | a clean item followed by `", "` contributes exactly itself before the items of the rest |
| `Ingredients.ParseJoinRoundTrip` | main.py:113 | parsing the `", "`-join of clean items gives the items back in order |
| `Ingredients.ParseIdempotent` | main.py:100-104 | joining a parsed list with `", "` and parsing again gives the same list |
| `Ingredients.ParsePadded` | main.py:104 | an item with a space on each side parses to the bare item |
| `Ingredients.ParseExample` | main.py:100-104 | text shaped like `"Tomato, , Cheese ,  Basil"` gives its three items in order: the blank piece vanishes and the padding goes |
| `Labels.FormatLabels` | main.py:34-40 | one label per annotation, in order, each with that annotation's description; the result is `LabelsOf(annotations)` |
| `Labels.LabelsOf` | main.py:34-40 | the list `get_image_labels` returns; `FormatLabels` is proved equal to it |
| `Labels.Descriptions` | main.py:73 | the descriptions of the formatted labels, in order; `LabelTextRoundTrip` shows the joined text gives them back |
| `Labels.LabelText` | main.py:73-74 | the `", "`-joined descriptions; `LabelTextRoundTrip` shows parsing inverts it for clean descriptions |
| `Labels.AnnotationText` | main.py:207-208 | the text sent to the language model for what the vision service returned; `AnnotationTextRoundTrip` states what it carries |
| `Labels.AnnotationTextRoundTrip` | main.py:34-40 | when every detected description is clean, parsing the text sent gives back exactly the detected descriptions, in order |
| `Labels.LabelTextRoundTrip` | main.py:72-74 | when every description is clean, parsing the joined label text gives back the descriptions |
| `Labels.AnnotationTextOfTwo` | main.py:73-74 | two detected labels reach the language model as `"<first>, <second>"` |
| `FileGate.AfterLastDot` | main.py:186 | `rsplit(".", 1)[1]` is the dot-free suffix right after a dot of the name |
| `FileGate.AllowedFile` | main.py:185-186 | an accepted name is non-empty and contains a dot |
| `FileGate.AllowedFileIff` | main.py:185-186 | a name is accepted exactly when the lower-cased text after its last dot is `png`, `jpg` or `jpeg` |
| `FileGate.ExtensionCaseInsensitive` | main.py:183-186 | an extension passes exactly when it spells `png`, `jpg` or `jpeg` with any mix of upper- and lower-case letters |
| `FileGate.GifRefused` | main.py:183-186 | `photo.gif` is refused |
| `FileGate.BareExtensionRefused` | main.py:186 | `png`, which has no dot, is refused |
| `FileGate.LastExtensionAnyCaseAccepted` | main.py:186 | `a.b.JPG` is accepted: only the last extension counts, in any case |
| `FileGate.InnerExtensionIgnored` | main.py:186 | `photo.png.exe` is refused |
| `FileGate.DotFileAccepted` | main.py:186 | `.png` is accepted |
| `FileGate.EmptyExtensionRefused` | main.py:186 | `photo.` is refused |
| `FileGate.PhotoJpgAccepted` | main.py:194-204 | an upload named `photo.jpg` passes the gate and runs the pipeline |
| `FileGate.CheckUpload` | main.py:194-216 | a missing part, an empty name and a refused name are each rejected with their own message; the pipeline runs exactly for a present part with an accepted name |
| `Recipes.Truthy` | main.py:173-176 | Python truthiness of an optional text entry: present and non-empty, which is what `not output_text`, `or` and the final conditional look at |
| `Recipes.Preferences` | main.py:172-175 | the entries the extraction looks at, in the order it tries them; none for a response that is not a dictionary |
| `Recipes.ExtractText` | main.py:169-176 | the result is the first truthy entry among `output.text`, `responseText` and `generatedText`, or `str(response)` when there is none or the response is not a dictionary |
| `Recipes.ResponseTextOnly` | main.py:172-175 | a response with only `responseText` yields that text, not the rendering of the whole response |
| `Recipes.NonDictRendered` | main.py:171-176 | a response that is not a dictionary yields `str(response)` |
| `Recipes.FirstSuccess` | main.py:147-164 | the position of the first successful candidate: every earlier one failed |
| `Recipes.Invoked` | main.py:147-164 | between one and all five candidates are called |
| `Recipes.RecipeText` | main.py:166-176 | the generator's result over all outcomes; `FirstSuccessAt` and `AllFail` pin it down in each case |
| `Recipes.RequestFor` | main.py:149-157 | the request for candidate `i`: the `", "`-joined ingredients, the knowledge base and the `i`-th model |
| `Recipes.FirstSuccessAt` | main.py:146-176 | when candidate `i` is the first to succeed, exactly `i + 1` candidates are called and the result is the text extracted from its response |
| `Recipes.AllFail` | main.py:146-167 | when every candidate fails, all five are called and the result is the failure message with the last error |
| `Recipes.GenerateRecipeWithKb` | main.py:106-176 | candidates are called in order, each with the joined ingredients and the knowledge base, up to the first success; every earlier call failed; the text is the extraction of the first success or the failure message with the last error, and nothing is raised |
| `Upload.RunStages` | main.py:207-213 | labelling is called first; its failure ends the request; normalisation gets the `", "`-join of the descriptions; its failure ends the request; otherwise the page shows the parsed ingredients and the generator's text, and every generator request carries the parsed ingredients |
| `Upload.HandleUpload` | main.py:192-216 | a rejected upload redirects with its message and calls nothing; an accepted one runs the stages as `RunStages` states |
| `Upload.SingleIngredientRequest` | main.py:207-211 | when the normaliser answers with one clean name, the ingredients are exactly that name and every generator request carries exactly it |
| `Upload.OneIngredientRequest` | main.py:201-213 | an accepted upload whose normaliser answers with one clean name renders exactly that name, and every generator call made carries exactly it as the ingredient text |
| `Upload.TomatoChairRequest` | main.py:201-213 | a photo labelled `Tomato` and `Chair`, with the normaliser keeping `Tomato`: the normaliser gets `"Tomato, Chair"`, the page lists exactly `Tomato`, and every generator call gets exactly `Tomato` |

## Left out

- The vision call (`vision.ImageAnnotatorClient`, `label_detection`), the converse call (`AI_Inference`), the retrieve-and-generate call and the file read: each is an input to the model, either its result or the exception it raises. The scores of a label annotation are carried but unused.
- Flask itself: routing, `flash`, `redirect`, `render_template`, `request.files`, `file.save`, `os.makedirs` and `os.path.join`. Pages are modelled as values: a redirect with its message, a rendered page with ingredients and recipe text, or an unhandled exception.
- `secure_filename` is not part of this model. A `file.save` that raises, which ends the request before labelling, is not modelled.
- The prompt templates of `normalize_data` and `generate_recipe_with_kb`, apart from the joined list they embed; the system prompts, the temperature and the unused `model_ids` list.
- Configuration from the environment (credentials, `BEDROCK_KB_ID`): the knowledge-base identifier is a parameter. The `region` parameter only selects the client and is left out.
- The handler calls `generate_recipe_with_kb` twice (main.py:211-212), first with the hard-coded `KB_ID`, then with the configured identifier, and renders only the second result. The model makes the second call only. The first call's extra requests are not modelled.
- `Recipes.ExtractText`: an `output` entry that is present but not a dictionary makes the Python code raise `AttributeError` before any fallback. The model gives `output` only the shape `{text: ...}`. Entry values are modelled as optional strings, and other truthy values are not modelled.
- `Recipes.GenerateRecipeWithKb`: apart from the `AttributeError` above, every path of main.py:146-176 returns without raising (a truthy entry that is not a string is returned unchanged; see `Recipes.ExtractText`). The model does not capture that exception.
- `FileGate.CheckUpload`: a file part whose filename is `None` (the code's `file and ...` test is false, so it is refused with the "not allowed" message) is not modelled. A filename is always a string, and the truthiness of the part is the test that its name is non-empty, which the earlier branch already guarantees.
- `Strings.Lower`: only ASCII letters are lowered. No other character lowers to any of the letters of `png`, `jpg` or `jpeg`, so the result of `allowed_file` is unchanged. Other case mappings, including those that change a string's length, are not modelled.
- `Ingredients.ParseExample`: the literal string `"Tomato, , Cheese ,  Basil"` is covered by a lemma over any three clean items in that shape, not by evaluating the literal.
- `str(response)` and `str(e)` are carried as given strings (the `repr` and `error` fields). How Python renders them is not modelled.
- Logging (`print` in `get_image_labels`) is left out.
