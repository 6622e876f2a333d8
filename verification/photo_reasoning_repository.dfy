/** `PhotoReasoningRepository.reason`: build the prompt and the multimodal input,
    stream the model's answer, and emit the answer accumulated so far after every
    chunk. The model is an input: a function from the input content to the chunks
    it streams back and the exception, if any, that ends the stream. */
module PhotoReasoningRepo {
  import opened KotlinRuntime
  import opened Responses

  /** One part of the model's input content. */
  datatype Part<B> = ImagePart(image: B) | TextPart(text: string)

  /** What the model streams for one request: each chunk's `text`, which may be
      null, and the exception that ended the stream early, if one did. */
  datatype ModelStream = ModelStream(chunks: seq<Option<string>>, failure: Option<Throwable>)

  const PromptPrefix: string := "Look at the image(s) and then answer the following question:"

  /** The prompt: the fixed question preamble immediately followed by the user's
      text, with no separator. */
  function Prompt(userInput: string): (p: string)
    ensures |p| == |PromptPrefix| + |userInput|
    ensures p[..|PromptPrefix|] == PromptPrefix && p[|PromptPrefix|..] == userInput
  {
    PromptPrefix + userInput
  }

  /** The `content { ... }` block: every selected image, in selection order, then
      the prompt text. */
  function InputContent<B>(selectedImages: seq<B>, prompt: string): (c: seq<Part<B>>)
    ensures |c| == |selectedImages| + 1
    ensures forall i :: 0 <= i < |selectedImages| ==> c[i] == ImagePart(selectedImages[i])
    ensures c[|selectedImages|] == TextPart(prompt)
  {
    seq(|selectedImages|, i requires 0 <= i < |selectedImages| => ImagePart(selectedImages[i])) + [TextPart(prompt)]
  }

  /** `outputContent` after the given chunks: `String += String?` appends each
      chunk's text, or "null" for a null chunk. */
  function Accumulated(chunks: seq<Option<string>>): (r: string)
    decreases |chunks|
  {
    if |chunks| == 0 then ""
    else Accumulated(chunks[..|chunks| - 1]) + TemplateOf(chunks[|chunks| - 1])
  }

  /** An earlier accumulation is a prefix of every later one. */
  lemma {:induction false} AccumulatedGrows(chunks: seq<Option<string>>, j: nat, k: nat)
    requires j <= k <= |chunks|
    ensures Accumulated(chunks[..j]) <= Accumulated(chunks[..k])
    decreases k - j
  {
    if j < k {
      AccumulatedGrows(chunks, j, k - 1);
      assert chunks[..k][..k - 1] == chunks[..k - 1];
      assert Accumulated(chunks[..k]) == Accumulated(chunks[..k - 1]) + TemplateOf(chunks[k - 1]);
    }
  }

  /** The accumulation of non-null chunks is their concatenation; a null chunk
      contributes the four letters "null". */
  lemma AccumulatedLength(chunks: seq<Option<string>>, x: Option<string>)
    ensures Accumulated(chunks + [x]) == Accumulated(chunks) + TemplateOf(x)
    ensures |Accumulated(chunks + [x])| == |Accumulated(chunks)| + (if x.Some? then |x.value| else 4)
  {
    assert (chunks + [x])[..|chunks|] == chunks;
  }

  /** The `Success` emissions of the collection loop, one per chunk. */
  function Progress(chunks: seq<Option<string>>): seq<Response<string>> {
    seq(|chunks|, i requires 0 <= i < |chunks| => Success(Accumulated(chunks[..i + 1])))
  }

  /** One more chunk adds one more `Success`, with that chunk accumulated. */
  lemma ProgressExtends(chunks: seq<Option<string>>, k: nat)
    requires k < |chunks|
    ensures Progress(chunks[..k + 1]) == Progress(chunks[..k]) + [Success(Accumulated(chunks[..k + 1]))]
  {
    var longer, shorter := chunks[..k + 1], chunks[..k];
    forall i | 0 <= i < k
      ensures Progress(longer)[i] == Progress(shorter)[i]
    {
      assert longer[..i + 1] == shorter[..i + 1];
    }
    assert longer[..k + 1] == longer;
    assert Progress(longer)[k] == Success(Accumulated(longer));
  }

  /** What `reason` emits for one model stream: `Loading` first, then after the
      k-th chunk a `Success` with the first k chunks accumulated, and, if the
      stream threw, one final `Error` carrying that exception's cause. The flow
      itself never throws, because the `catch` turns the exception into that
      final `Error`. */
  function ReasonEmissions(stream: ModelStream): (e: Emissions<string>)
    ensures e.failure.None?
    ensures |e.items| == 1 + |stream.chunks| + (if stream.failure.Some? then 1 else 0)
    ensures e.items[0] == Loading
    ensures forall k :: 1 <= k <= |stream.chunks| ==> e.items[k] == Success(Accumulated(stream.chunks[..k]))
    ensures stream.failure.Some? ==> e.items[|e.items| - 1] == Error(stream.failure.value.cause)
    ensures stream.failure.None? ==> forall i :: 1 <= i < |e.items| ==> e.items[i].Success?
  {
    var tail: seq<Response<string>> := if stream.failure.Some? then [Error(stream.failure.value.cause)] else [];
    var items := [Loading] + Progress(stream.chunks) + tail;
    assert forall k :: 1 <= k <= |stream.chunks| ==> items[k] == Progress(stream.chunks)[k - 1];
    Emissions(items, None)
  }

  /** Each `Success` payload is a prefix of every later one. */
  lemma SuccessPayloadsGrow(stream: ModelStream, j: nat, k: nat)
    requires 1 <= j <= k <= |stream.chunks|
    ensures ReasonEmissions(stream).items[j].dataSuccess <= ReasonEmissions(stream).items[k].dataSuccess
  {
    AccumulatedGrows(stream.chunks, j, k);
  }

  /** `reason`: the accumulate-and-emit loop over the model's stream. */
  method Reason<B>(userInput: string, selectedImages: seq<B>, generate: seq<Part<B>> -> ModelStream)
    returns (out: Emissions<string>)
    ensures out == ReasonEmissions(generate(InputContent(selectedImages, Prompt(userInput))))
  {
    var prompt := Prompt(userInput);
    var items: seq<Response<string>> := [Loading];
    var inputContent := InputContent(selectedImages, prompt);
    var stream := generate(inputContent);
    var outputContent := "";
    var k := 0;
    while k < |stream.chunks|
      invariant 0 <= k <= |stream.chunks|
      invariant outputContent == Accumulated(stream.chunks[..k])
      invariant items == [Loading] + Progress(stream.chunks[..k])
    {
      assert stream.chunks[..k + 1][..k] == stream.chunks[..k];
      ProgressExtends(stream.chunks, k);
      outputContent := outputContent + TemplateOf(stream.chunks[k]);
      items := items + [Success(outputContent)];
      k := k + 1;
    }
    assert stream.chunks[..k] == stream.chunks;
    if stream.failure.Some? {
      items := items + [Error(stream.failure.value.cause)];
    }
    out := Emissions(items, None);
  }
}
