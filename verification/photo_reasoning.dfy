/** The photo-reasoning screen: its four-variant UI state and the view-model's
    `reason`, which maps every response of the repository onto a fresh UI state. */
module PhotoReasoning {
  import opened KotlinRuntime
  import Responses
  import opened Dispatch
  import PhotoReasoningRepo

  /** `PhotoReasoningUiState`: nothing asked yet, waiting, an answer, or an error
      message (never null). */
  datatype PhotoReasoningUiState = Initial | Loading | Success(output: string) | Error(errorMsg: string)

  /** The state the view-model starts in. */
  const InitialUiState: PhotoReasoningUiState := Initial

  /** The UI state one response stands for; an error without a message shows "". */
  function ToUiState(r: Responses.Response<string>): (u: PhotoReasoningUiState)
    ensures !u.Initial?
    ensures r.Loading? <==> u.Loading?
    ensures r.Success? <==> u.Success?
    ensures r.Success? ==> u.output == r.dataSuccess
    ensures r.Error? ==> u == Error(MessageOf(r.throwable).GetOr(""))
  {
    match r
    case Loading => Loading
    case Success(s) => Success(s)
    case Error(e) => Error(MessageOf(e).GetOr(""))
  }

  /** Every handler replaces the state with the response's UI state, never
      reading the previous one. */
  function ReasonHandlers(): Handlers<PhotoReasoningUiState, string> {
    Handlers(
      (u: PhotoReasoningUiState, e) => Done(ToUiState(Responses.Error(e))),
      (u: PhotoReasoningUiState) => Done(ToUiState(Responses.Loading)),
      (u: PhotoReasoningUiState, out) => Done(ToUiState(Responses.Success(out))))
  }

  /** The view-model's `reason` over one run of the repository's flow; a `Threw`
      result is a producer exception that escapes the coroutine. */
  function Reason(u: PhotoReasoningUiState, run: Responses.Emissions<string>): (r: Step<PhotoReasoningUiState>)
    ensures r.Threw? <==> run.failure.Some?
    ensures |run.items| == 0 ==> r.state == u
    ensures |run.items| > 0 ==> r.state == ToUiState(run.items[|run.items| - 1])
  {
    LastResponseWins(u, run.items);
    CollectAndHandle(ReasonHandlers(), u, run)
  }

  /** After a finite run the UI state is that of the last response, whatever came
      before it; an empty run leaves the state as it was. */
  lemma {:induction false} LastResponseWins(u: PhotoReasoningUiState, rs: seq<Responses.Response<string>>)
    ensures CollectAll(ReasonHandlers(), u, rs) ==
              Done(if |rs| == 0 then u else ToUiState(rs[|rs| - 1]))
    decreases |rs|
  {
    if |rs| > 0 {
      var init, last := rs[..|rs| - 1], rs[|rs| - 1];
      assert rs == init + [last];
      LastResponseWins(u, init);
      CollectAllSnoc(ReasonHandlers(), u, init, last);
    }
  }

  /** The whole photo-reasoning round trip, from the model's stream to the screen:
      the screen ends on the full accumulated answer, or on `Loading` when the model
      sent nothing, or on the message of the exception's cause ("" when absent). */
  lemma ScreenShowsFullAnswer(u: PhotoReasoningUiState, stream: PhotoReasoningRepo.ModelStream)
    ensures var r := Reason(u, PhotoReasoningRepo.ReasonEmissions(stream));
            && r.Done?
            && (stream.failure.Some? ==> r.state == Error(MessageOf(stream.failure.value.cause).GetOr("")))
            && (stream.failure.None? && |stream.chunks| == 0 ==> r.state == Loading)
            && (stream.failure.None? && |stream.chunks| > 0 ==>
                  r.state == Success(PhotoReasoningRepo.Accumulated(stream.chunks)))
  {
    var e := PhotoReasoningRepo.ReasonEmissions(stream);
    if stream.failure.None? && |stream.chunks| > 0 {
      assert stream.chunks[..|stream.chunks|] == stream.chunks;
      assert e.items[|e.items| - 1] == Responses.Success(PhotoReasoningRepo.Accumulated(stream.chunks));
    }
  }
}
