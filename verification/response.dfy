/** The application's `Response<T>` sum type: the events every repository emits
    for one asynchronous operation. */
module Responses {
  import opened KotlinRuntime

  /** `Response.Loading`, `Response.Success(dataSuccess)` and `Response.Error(throwable)`,
      the last with a possibly-null error. */
  datatype Response<+T> = Loading | Success(dataSuccess: T) | Error(throwable: Option<Throwable>)

  /** The base class's `data` field: set only by the `Success` constructor. A
      nullable payload keeps its own null inside `Some` here; Kotlin's reading of
      such a payload is `NullableDataOf`. */
  function DataOf<T>(r: Response<T>): (d: Option<T>)
    ensures d.Some? <==> r.Success?
    ensures r.Success? ==> d.value == r.dataSuccess
  {
    if r.Success? then Some(r.dataSuccess) else None
  }

  /** The base class's `error` field: set only by the `Error` constructor, and
      null there too when the error itself is null. */
  function ErrorOf<T>(r: Response<T>): (e: Option<Throwable>)
    ensures e.Some? ==> r.Error?
    ensures r.Error? ==> e == r.throwable
    ensures !r.Error? ==> e.None?
  {
    if r.Error? then r.throwable else None
  }

  /** What one finite collection of a `Flow<Response<T>>` sees: the responses it
      emitted, in order, and whether the producer then ended by throwing instead
      of completing. */
  datatype Emissions<+T> = Emissions(items: seq<Response<T>>, failure: Option<Throwable>)

  /** The two derived fields never both carry a value, and a `Loading` is
      indistinguishable by them from an `Error` whose error is null. (With a
      nullable payload, `Success(null)` joins them: see `NullablePayloadFields`.) */
  lemma DerivedFieldsExclusive<T>(r: Response<T>)
    ensures !(DataOf(r).Some? && ErrorOf(r).Some?)
    ensures r.Loading? ==> DataOf(r).None? && ErrorOf(r).None?
    ensures DataOf(r).None? && ErrorOf(r).None? <==> r.Loading? || r == Error(None)
  {
  }

  /** The base class's `data` field as Kotlin reads it when the payload type is
      itself nullable, as for the repositories' `Response<AuthResult?>`: `T?`
      of a nullable `T` is one level of null, so `Success(null)` has a null
      `data` as well. */
  function NullableDataOf<X>(r: Response<Option<X>>): (d: Option<X>)
    ensures d.Some? <==> r.Success? && r.dataSuccess.Some?
    ensures d.Some? ==> d == r.dataSuccess
  {
    if r.Success? then r.dataSuccess else None
  }

  /** With a nullable payload, Kotlin's `data` is the model's `DataOf` with its two
      levels of null collapsed into one; the fields are still never both set,
      but both are null for `Success(null)` as well as for `Loading` and a null
      `Error`. */
  lemma NullablePayloadFields<X>(r: Response<Option<X>>)
    ensures NullableDataOf(r) == (if DataOf(r).Some? then DataOf(r).value else None)
    ensures !(NullableDataOf(r).Some? && ErrorOf(r).Some?)
    ensures NullableDataOf(r).None? && ErrorOf(r).None? <==> r.Loading? || r == Error(None) || r == Success(None)
  {
  }

  /** The last response that is not `Loading`, if any: the one that decides how
      a screen's success flag ends up. */
  function LastSettled<T>(rs: seq<Response<T>>): (r: Option<Response<T>>)
    ensures r.Some? ==> !r.value.Loading? && r.value in rs
    ensures r.None? <==> forall i :: 0 <= i < |rs| ==> rs[i].Loading?
    decreases |rs|
  {
    if |rs| == 0 then None
    else if rs[|rs| - 1].Loading? then LastSettled(rs[..|rs| - 1])
    else Some(rs[|rs| - 1])
  }

  /** The payload of the last `Success`, if any. */
  function LastSuccess<T>(rs: seq<Response<T>>): (r: Option<T>)
    ensures r.Some? ==> Success(r.value) in rs
    ensures r.None? <==> forall i :: 0 <= i < |rs| ==> !rs[i].Success?
    decreases |rs|
  {
    if |rs| == 0 then None
    else if rs[|rs| - 1].Success? then Some(rs[|rs| - 1].dataSuccess)
    else LastSuccess(rs[..|rs| - 1])
  }

  /** The message of the last `Error` in `rs`, or `before` when there is none:
      what a screen shows when only `Error` writes its message. */
  function LastErrorMessage<T>(rs: seq<Response<T>>, before: Option<string>): (m: Option<string>)
    ensures (forall i :: 0 <= i < |rs| ==> !rs[i].Error?) ==> m == before
    decreases |rs|
  {
    if |rs| == 0 then before
    else if rs[|rs| - 1].Error? then MessageOf(rs[|rs| - 1].throwable)
    else LastErrorMessage(rs[..|rs| - 1], before)
  }

  /** `LastErrorMessage` is the message of the `Error` after which no other
      `Error` comes, wherever it stands. */
  lemma {:induction false} LastErrorMessageAt<T>(rs: seq<Response<T>>, before: Option<string>, i: nat)
    requires i < |rs| && rs[i].Error?
    requires forall j :: i < j < |rs| ==> !rs[j].Error?
    ensures LastErrorMessage(rs, before) == MessageOf(rs[i].throwable)
    decreases |rs|
  {
    if i < |rs| - 1 {
      var init := rs[..|rs| - 1];
      assert init[i] == rs[i];
      LastErrorMessageAt(init, before, i);
    }
  }

  /** The last settled response decides the message whenever it is an `Error`,
      and when nothing settled the message is the one before. */
  lemma {:induction false} LastSettledErrorMessage<T>(rs: seq<Response<T>>, before: Option<string>)
    ensures LastSettled(rs).None? ==> LastErrorMessage(rs, before) == before
    ensures LastSettled(rs).Some? && LastSettled(rs).value.Error? ==>
              LastErrorMessage(rs, before) == MessageOf(LastSettled(rs).value.throwable)
    decreases |rs|
  {
    if |rs| > 0 && rs[|rs| - 1].Loading? {
      LastSettledErrorMessage(rs[..|rs| - 1], before);
    }
  }

  /** A flag that every `Success` sets and every `Error` clears, after `rs`,
      starting from `before`. */
  function FlagAfter<T>(rs: seq<Response<T>>, before: bool): bool {
    match LastSettled(rs)
    case None => before
    case Some(r) => r.Success?
  }
}
