/** `Command.UpdateResult`: what a command says should happen to a cached value. */
module Command {
  import opened Wrappers

  /** `UpdateResult.Type`. */
  datatype ResultType = Updated | UpdateNotRequired | Invalidate

  /** The two fields of an `UpdateResult`: its type and its nullable payload. */
  datatype UpdateResult<T> = UpdateResult(kind: ResultType, param: Option<T>)

  /** The constructor's invariant: a payload exactly for `UPDATED`. */
  predicate Consistent<T>(r: UpdateResult<T>) {
    r.kind == Updated <==> r.param.Some?
  }

  /** The only results that can exist, since the constructor is private and checks. */
  type Outcome<T> = r: UpdateResult<T> | Consistent(r) witness UpdateResult(UpdateNotRequired, None)

  /** The private constructor `UpdateResult(param, type)`. */
  function MakeResult<T>(param: Option<T>, kind: ResultType): (r: Result<Outcome<T>>)
    ensures r.Success? <==> (kind == Updated <==> param.Some?)
    ensures r.Failure? ==> r.error == IllegalArgument
    ensures r.Success? ==> r.value.kind == kind && r.value.param == param
  {
    var u := UpdateResult(kind, param);
    if Consistent(u) then Success(u) else Failure(IllegalArgument)
  }

  /** `isInvalidate()`. */
  predicate IsInvalidate<T>(r: UpdateResult<T>) {
    r.kind == Invalidate
  }

  /** `isUpdate()`. */
  predicate IsUpdate<T>(r: UpdateResult<T>) {
    r.kind == Updated
  }

  /** `getParam()`: the payload, and an `IllegalStateException` on any other type. */
  function GetParam<T>(r: Outcome<T>): (p: Result<T>)
    ensures p.Success? <==> IsUpdate(r)
    ensures p.Failure? ==> p.error == IllegalState(NotUpdated)
    ensures p.Success? ==> r.param == Some(p.value)
  {
    if r.kind == Updated then Success(r.param.value) else Failure(IllegalState(NotUpdated))
  }

  /** `forUpdate(param)`. */
  function ForUpdate<T>(param: T): (r: Outcome<T>)
    ensures IsUpdate(r) && !IsInvalidate(r)
    ensures GetParam(r) == Success(param)
  {
    MakeResult(Some(param), Updated).value
  }

  /** `forUpdateNotRequired()`. */
  function ForUpdateNotRequired<T>(): (r: Outcome<T>)
    ensures !IsUpdate(r) && !IsInvalidate(r)
    ensures GetParam(r).Failure?
  {
    MakeResult(None, UpdateNotRequired).value
  }

  /** `forInvalidate()`. */
  function ForInvalidate<T>(): (r: Outcome<T>)
    ensures IsInvalidate(r) && !IsUpdate(r)
    ensures GetParam(r).Failure?
  {
    MakeResult(None, Invalidate).value
  }

  /** The constructor rejects `UPDATED` without a payload and the other two types with one. */
  lemma ConstructorRejectsInconsistent<T>(p: T)
    ensures MakeResult<T>(None, Updated).Failure?
    ensures MakeResult(Some(p), UpdateNotRequired).Failure?
    ensures MakeResult(Some(p), Invalidate).Failure?
  {
  }

  /** Every result is exactly one of the three factories' outputs. */
  lemma OutcomeIsOneOfFactories<T>(r: Outcome<T>)
    ensures !(IsUpdate(r) && IsInvalidate(r))
    ensures IsUpdate(r) ==> r == ForUpdate(r.param.value)
    ensures IsInvalidate(r) ==> r == ForInvalidate()
    ensures !IsUpdate(r) && !IsInvalidate(r) ==> r == ForUpdateNotRequired()
  {
  }
}
