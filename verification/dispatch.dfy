/** `Flow<Response<T>>.collectAndHandle`: every collected response goes, in order,
    to exactly one of three caller-supplied handlers. The caller's mutable screen
    state becomes the fold's accumulator, and a Kotlin `throw` inside a handler
    becomes an early exit that keeps whatever the handler had already written. */
module Dispatch {
  import opened KotlinRuntime
  import opened Responses

  /** How a handler, or a whole collection, ended: normally with the state it
      left behind, or by throwing `exception` after having written `state`. */
  datatype Step<+S> = Done(state: S) | Threw(state: S, exception: Throwable)

  /** The three parameters `onError`, `onLoading` and `stateReducer`. */
  datatype Handlers<!S, !T> = Handlers(
    onError: (S, Option<Throwable>) -> Step<S>,
    onLoading: S -> Step<S>,
    stateReducer: (S, T) -> Step<S>)

  /** The default `onError`: it only writes to the log, so the state is kept. */
  function LogError<S>(s: S, e: Option<Throwable>): (r: Step<S>)
    ensures r == Done(s)
  {
    Done(s)
  }

  /** The default `onLoading`: an empty lambda. */
  function IgnoreLoading<S>(s: S): (r: Step<S>)
    ensures r == Done(s)
  {
    Done(s)
  }

  /** A call site that passes only the trailing `stateReducer` lambda. */
  function WithDefaults<S, T>(stateReducer: (S, T) -> Step<S>): Handlers<S, T> {
    Handlers((s, e) => LogError(s, e), s => IgnoreLoading(s), stateReducer)
  }

  /** The `when (response)` of one collected element. */
  function Handle<S, T>(h: Handlers<S, T>, s: S, r: Response<T>): Step<S> {
    match r
    case Error(e) => h.onError(s, e)
    case Success(v) => h.stateReducer(s, v)
    case Loading => h.onLoading(s)
  }

  /** Collecting a sequence of responses: handle each in turn, stopping at the
      first handler that throws. */
  function CollectAll<S, T>(h: Handlers<S, T>, s: S, rs: seq<Response<T>>): Step<S>
    decreases |rs|
  {
    if |rs| == 0 then Done(s)
    else
      match Handle(h, s, rs[0])
      case Done(s1) => CollectAll(h, s1, rs[1..])
      case Threw(s1, e) => Threw(s1, e)
  }

  /** Continue a collection that reached `st` with the further responses `rs`. */
  function Resume<S, T>(h: Handlers<S, T>, st: Step<S>, rs: seq<Response<T>>): Step<S> {
    match st
    case Done(s) => CollectAll(h, s, rs)
    case Threw(_, _) => st
  }

  /** `collectAndHandle` over one finite run of the producer: the responses, and
      then the producer's own exception, if it threw one, rethrown by `collect`.
      The screen keeps whatever the handlers wrote; the collection completes only
      when neither a handler nor the producer threw; and a handler's exception,
      which stops the collection first, is the one that escapes. */
  function CollectAndHandle<S, T>(h: Handlers<S, T>, s: S, run: Emissions<T>): (r: Step<S>)
    ensures r.state == CollectAll(h, s, run.items).state
    ensures r.Done? <==> CollectAll(h, s, run.items).Done? && run.failure.None?
    ensures CollectAll(h, s, run.items).Threw? ==> r.exception == CollectAll(h, s, run.items).exception
    ensures CollectAll(h, s, run.items).Done? && r.Threw? ==> r.exception == run.failure.value
  {
    match CollectAll(h, s, run.items)
    case Done(s1) => if run.failure.Some? then Threw(s1, run.failure.value) else Done(s1)
    case Threw(s1, e) => Threw(s1, e)
  }

  /** Collecting `a + b` is collecting `a` and then, unless that threw, `b`. */
  lemma {:induction false} CollectAllAppend<S, T>(h: Handlers<S, T>, s: S, a: seq<Response<T>>, b: seq<Response<T>>)
    ensures CollectAll(h, s, a + b) == Resume(h, CollectAll(h, s, a), b)
    decreases |a|
  {
    if |a| == 0 {
      assert a + b == b;
    } else {
      assert (a + b)[0] == a[0];
      assert (a + b)[1..] == a[1..] + b;
      match Handle(h, s, a[0])
      case Done(s1) =>
        CollectAllAppend(h, s1, a[1..], b);
      case Threw(_, _) =>
    }
  }

  /** One more response at the end is handled in the state the others left. */
  lemma CollectAllSnoc<S, T>(h: Handlers<S, T>, s: S, rs: seq<Response<T>>, r: Response<T>)
    ensures CollectAll(h, s, rs).Done? ==>
              CollectAll(h, s, rs + [r]) == Handle(h, CollectAll(h, s, rs).state, r)
    ensures CollectAll(h, s, rs).Threw? ==> CollectAll(h, s, rs + [r]) == CollectAll(h, s, rs)
  {
    CollectAllAppend(h, s, rs, [r]);
    match CollectAll(h, s, rs)
    case Done(s1) =>
      assert CollectAll(h, s1, [r]) == Resume(h, Handle(h, s1, r), []);
    case Threw(_, _) =>
  }

  /** Once a handler has thrown, nothing emitted later is handled. */
  lemma ThrowDiscardsRest<S, T>(h: Handlers<S, T>, s: S, a: seq<Response<T>>, rest: seq<Response<T>>)
    requires CollectAll(h, s, a).Threw?
    ensures CollectAll(h, s, a + rest) == CollectAll(h, s, a)
  {
    CollectAllAppend(h, s, a, rest);
  }

  /** Which handler one element reaches, and with which argument. */
  datatype Call<+T> = ErrorCall(error: Option<Throwable>) | LoadingCall | ReducerCall(value: T)

  /** Handlers that do nothing but append the call they receive to a log. */
  function Recorder<T>(): Handlers<seq<Call<T>>, T> {
    Handlers(
      (log: seq<Call<T>>, e) => Done(log + [ErrorCall(e)]),
      (log: seq<Call<T>>) => Done(log + [LoadingCall]),
      (log: seq<Call<T>>, v) => Done(log + [ReducerCall(v)]))
  }

  /** Each element triggers exactly one handler call, chosen by its variant, in
      emission order, with nothing skipped or duplicated: a `Success` hands its
      `dataSuccess` unchanged to `stateReducer`, an `Error` hands its possibly-null
      error to `onError`, and a `Loading` calls `onLoading`. */
  lemma {:induction false} HandlerCallsInOrder<T>(log: seq<Call<T>>, rs: seq<Response<T>>)
    ensures CollectAll(Recorder(), log, rs).Done?
    ensures var out := CollectAll(Recorder(), log, rs).state;
            && |out| == |log| + |rs|
            && out[..|log|] == log
            && forall i :: 0 <= i < |rs| ==>
                 && (rs[i].Loading? ==> out[|log| + i] == LoadingCall)
                 && (rs[i].Success? ==> out[|log| + i] == ReducerCall(rs[i].dataSuccess))
                 && (rs[i].Error? ==> out[|log| + i] == ErrorCall(rs[i].throwable))
    decreases |rs|
  {
    if |rs| > 0 {
      var c := match rs[0]
        case Error(e) => ErrorCall(e)
        case Success(v) => ReducerCall(v)
        case Loading => LoadingCall;
      assert Handle(Recorder(), log, rs[0]) == Done(log + [c]);
      HandlerCallsInOrder(log + [c], rs[1..]);
      var out := CollectAll(Recorder(), log, rs).state;
      assert out == CollectAll(Recorder(), log + [c], rs[1..]).state;
      forall i | 0 <= i < |rs|
        ensures && (rs[i].Loading? ==> out[|log| + i] == LoadingCall)
                && (rs[i].Success? ==> out[|log| + i] == ReducerCall(rs[i].dataSuccess))
                && (rs[i].Error? ==> out[|log| + i] == ErrorCall(rs[i].throwable))
      {
        if i > 0 {
          assert rs[i] == rs[1..][i - 1];
          assert out[|log| + i] == out[|log + [c]| + (i - 1)];
        }
      }
    }
  }

  /** The handler call one element stands for. */
  function CallOf<T>(r: Response<T>): Call<T> {
    match r
    case Error(e) => ErrorCall(e)
    case Success(v) => ReducerCall(v)
    case Loading => LoadingCall
  }

  /** The handler calls a sequence of elements stands for, element by element. */
  function Calls<T>(rs: seq<Response<T>>): (cs: seq<Call<T>>)
    ensures |cs| == |rs|
  {
    seq(|rs|, i requires 0 <= i < |rs| => CallOf(rs[i]))
  }

  /** `collectAndHandle` over a whole run: every emitted element reaches its one
      handler, in order, and only after the last of them does the producer's own
      exception, unchanged, surface; a run without one completes. */
  lemma RecordedCollection<T>(log: seq<Call<T>>, run: Emissions<T>)
    ensures var r := CollectAndHandle(Recorder(), log, run);
            && r.state == log + Calls(run.items)
            && (r.Threw? <==> run.failure.Some?)
            && (r.Threw? ==> r.exception == run.failure.value)
  {
    HandlerCallsInOrder(log, run.items);
    var out := CollectAll(Recorder(), log, run.items).state;
    forall i | 0 <= i < |log + Calls(run.items)|
      ensures out[i] == (log + Calls(run.items))[i]
    {
      if i >= |log| {
        var k := i - |log|;
        assert out[|log| + k] == CallOf(run.items[k]);
      }
    }
  }

  /** A sequence without a `Success` never reaches `stateReducer`: any other
      reducer gives the same outcome. */
  lemma {:induction false} NoSuccessNeverReduces<S, T>(h: Handlers<S, T>, g: (S, T) -> Step<S>, s: S, rs: seq<Response<T>>)
    requires forall i :: 0 <= i < |rs| ==> !rs[i].Success?
    ensures CollectAll(h, s, rs) == CollectAll(h.(stateReducer := g), s, rs)
    decreases |rs|
  {
    if |rs| > 0 {
      assert !rs[0].Success?;
      match Handle(h, s, rs[0])
      case Done(s1) =>
        NoSuccessNeverReduces(h, g, s1, rs[1..]);
      case Threw(_, _) =>
    }
  }

  /** The responses other than `Loading`, in their original order. */
  function WithoutLoading<T>(rs: seq<Response<T>>): (r: seq<Response<T>>)
    ensures |r| <= |rs|
    ensures forall i :: 0 <= i < |r| ==> !r[i].Loading?
    decreases |rs|
  {
    if |rs| == 0 then []
    else if rs[0].Loading? then WithoutLoading(rs[1..])
    else [rs[0]] + WithoutLoading(rs[1..])
  }

  /** With an `onLoading` that leaves the state alone (the default one),
      `Loading` elements have no effect at all. */
  lemma {:induction false} IgnoredLoadingIsInvisible<S, T>(h: Handlers<S, T>, s: S, rs: seq<Response<T>>)
    requires forall x :: h.onLoading(x) == Done(x)
    ensures CollectAll(h, s, rs) == CollectAll(h, s, WithoutLoading(rs))
    decreases |rs|
  {
    if |rs| > 0 {
      if rs[0].Loading? {
        IgnoredLoadingIsInvisible(h, s, rs[1..]);
      } else {
        var w := WithoutLoading(rs);
        assert w[0] == rs[0] && w[1..] == WithoutLoading(rs[1..]);
        match Handle(h, s, rs[0])
        case Done(s1) =>
          IgnoredLoadingIsInvisible(h, s1, rs[1..]);
        case Threw(_, _) =>
      }
    }
  }

  /** Handlers none of which ever throws. */
  ghost predicate NeverThrows<S(!new), T(!new)>(h: Handlers<S, T>) {
    && (forall s, e :: h.onError(s, e).Done?)
    && (forall s :: h.onLoading(s).Done?)
    && (forall s, v :: h.stateReducer(s, v).Done?)
  }

  /** With handlers that never throw, a collection of responses always completes. */
  lemma {:induction false} NeverThrowsCompletes<S(!new), T(!new)>(h: Handlers<S, T>, s: S, rs: seq<Response<T>>)
    requires NeverThrows(h)
    ensures CollectAll(h, s, rs).Done?
    decreases |rs|
  {
    if |rs| > 0 {
      var st := Handle(h, s, rs[0]);
      assert st.Done?;
      NeverThrowsCompletes(h, st.state, rs[1..]);
    }
  }
}
