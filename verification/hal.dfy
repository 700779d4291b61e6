/**
 * Names and outcomes shared by both generations of the HAL codec: the
 * reserved member names of draft-kelly-json-hal-11 (section 4 for the
 * resource object, section 5 for the link object), the errors the codec
 * reports, and the first decoding step every UnmarshalJSON takes.
 */
module Hal {
  import opened Json

  // Reserved resource members.
  const SELF := "self"
  const CURIES := "curies"
  const LINKS := "_links"
  const EMBEDDED := "_embedded"

  // Link object properties.
  const HREF := "href"
  const NAME := "name"
  const HREFLANG := "hreflang"
  const TEMPLATED := "templated"
  const PROFILE := "profile"
  const TITLE := "title"
  const TYPE := "type"
  const DEPRECATION := "deprecation"

  /**
   * How a codec call can fail.  ErrNoCurie is the sentinel error of
   * AddLink; Malformed is an error returned by encoding/json for input
   * of the wrong shape; TypeMismatch is the v3 error for a data value
   * that is not a T; Panic is a Go runtime panic (a failed unchecked type
   * assertion or a nil dereference), which the caller cannot recover
   * from as an error value.
   */
  datatype Error = ErrNoCurie | Malformed | TypeMismatch | Panic

  datatype Option<T> = None | Some(value: T)

  /**
   * A Go slice where nil and empty differ: encoding/json writes a nil
   * slice as null and an empty one as `[]`.
   */
  datatype Slice<T> = Nil | Slice(elems: seq<T>) {
    function Elems(): seq<T> {
      if Nil? then [] else elems
    }
  }

  datatype Result<T> = Success(value: T) | Failure(error: Error) {
    predicate IsFailure() {
      Failure?
    }

    function PropagateFailure<U>(): Result<U>
      requires Failure?
    {
      Failure(error)
    }

    function Extract(): T
      requires Success?
    {
      value
    }
  }

  /** A string property read by a type check that skips a value of the wrong type. */
  function LenientString(m: map<string, Json>, key: string): string {
    if key in m && m[key].Str? then m[key].s else ""
  }

  /** A boolean property read the same way. */
  function LenientBool(m: map<string, Json>, key: string): bool {
    if key in m && m[key].Bool? then m[key].b else false
  }

  /**
   * `json.Unmarshal` of a value into a `map[string]...`: an object gives
   * its members (a repeated key keeps its last value), null gives a nil
   * map, which reads as empty, and anything else is an error.
   */
  function AsObject(j: Json): (r: Result<map<string, Json>>)
    ensures r.Success? <==> j.Obj? || j.Null?
    ensures j.Obj? ==> r == Success(ToMap(j.members))
    ensures j.Null? ==> r == Success(map[])
    ensures r.Failure? ==> r.error == Malformed
  {
    match j
    case Obj(ms) => Success(ToMap(ms))
    case Null => Success(map[])
    case _ => Failure(Malformed)
  }

  /** A value read out of an object is a smaller tree than the object. */
  lemma ValueSmaller(j: Json, k: string)
    requires AsObject(j).Success? && k in AsObject(j).value
    ensures Size(AsObject(j).value[k]) < Size(j)
  {
    ValuesSmaller(j.members);
  }

  /**
   * Decoding the elements of a list one after the other: the first
   * failure is the outcome, otherwise every element's value in order.
   */
  function Sequence<T>(rs: seq<Result<T>>): (r: Result<seq<T>>)
    ensures r.Success? <==> forall i :: 0 <= i < |rs| ==> rs[i].Success?
    ensures r.Success? ==> |r.value| == |rs| && forall i :: 0 <= i < |rs| ==> rs[i] == Success(r.value[i])
    ensures r.Failure? ==> exists i :: 0 <= i < |rs| && rs[i] == Failure(r.error) &&
                                       forall n :: 0 <= n < i ==> rs[n].Success?
  {
    if rs == [] then Success([])
    else if rs[0].Failure? then Failure(rs[0].error)
    else
      var tail := Sequence(rs[1..]);
      if tail.Failure? then
        var i :| 0 <= i < |rs[1..]| && rs[1..][i] == Failure(tail.error) &&
                 forall n :: 0 <= n < i ==> rs[1..][n].Success?;
        assert rs[i + 1] == Failure(tail.error);
        Failure(tail.error)
      else
        Success([rs[0].value] + tail.value)
  }
}
