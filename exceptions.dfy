/** What a rejected promise or a `throw` carries, as far as the modelled code tells kinds apart. */
module Exceptions {
  import opened Wrappers
  import opened Js
  import opened HttpErrors

  /**
   * A thrown value that is not a plain object. An array is kept: the arrays of
   * this model carry no `message` property, so reading one gives undefined.
   */
  type NonObject = v: Value | !v.Obj? witness Undefined

  datatype Exception =
      /** an HttpError instance: the transport rejects every failed request with one */
    | HttpFailure(error: HttpError)
      /**
       * any other object (a TypeError, an Error, a plain `{message: …}`); `message`
       * is its string `message` property, None when it has none
       */
    | ErrorObject(message: Option<string>)
      /** a thrown non-object, such as the string 'cancel' a dismissed confirmation dialog rejects with */
    | Primitive(value: NonObject)

  /**
   * How a thrown value other than an HttpError is seen: an object by its
   * `message` property when that is a string, anything else as it is.
   */
  function Classify(v: Value): (e: Exception)
    ensures !e.HttpFailure?
    ensures e.ErrorObject? <==> v.Obj?
    ensures e.ErrorObject? ==> (e.message.Some? <==> Prop(v, "message").Str?)
    ensures e.ErrorObject? && e.message.Some? ==> Prop(v, "message") == Str(e.message.value)
    ensures e.Primitive? ==> e.value == v
  {
    if v.Obj? then ErrorObject(if Prop(v, "message").Str? then Some(Prop(v, "message").s) else None)
    else Primitive(v)
  }

  /** The message V8 gives the TypeError thrown by reading `key` of null or undefined. */
  function ReadOfNothingMessage(target: Value, key: string): string {
    "Cannot read properties of " + (if target.Null? then "null" else "undefined") + " (reading '" + key + "')"
  }

  /** `v.key` where a throw is possible: reading a property of null or undefined throws a TypeError. */
  function ReadProperty(v: Value, key: string): (r: Result<Value, Exception>)
    ensures r.Failure? <==> v.Null? || v.Undefined?
    ensures r.Success? ==> r.value == Prop(v, key)
  {
    if v.Null? || v.Undefined? then Failure(ErrorObject(Some(ReadOfNothingMessage(v, key))))
    else Success(Prop(v, key))
  }
}
