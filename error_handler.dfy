/**
 * useErrorHandler's customHandleError: turns whatever a failed operation threw
 * into one error notice, or into nothing when the user cancelled.
 */
module ErrorHandler {
  import opened Wrappers
  import opened Js
  import opened HttpErrors
  import opened Exceptions
  import opened Ui

  const DefaultFailureMessage := "작업에 실패했습니다."
  const ValidationHeading := "\n검증 오류: "
  const Cancel := Primitive(Str("cancel"))

  /** `${statusCode} - ${message}`. */
  function StatusLine(e: HttpError): string {
    IntToString(e.statusCode) + " - " + e.message
  }

  /** The validation map holds at least one entry (`validation && Object.keys(validation).length > 0`). */
  predicate HasValidationErrors(e: HttpError) {
    Truthy(e.validation) && |ObjectValues(e.validation)| > 0
  }

  /**
   * The notice text for an HttpError: the status line, then the validation
   * messages joined by ", ". It starts with the status in decimal, " - " and the
   * message, and is exactly that line when there are no validation errors.
   */
  function HttpErrorNotice(e: HttpError): (r: string)
    ensures StatusLine(e) <= r
    ensures r == StatusLine(e) <==> !HasValidationErrors(e)
  {
    if HasValidationErrors(e)
    then StatusLine(e) + ValidationHeading + ArrayJoin(ObjectValues(e.validation), ", ")
    else StatusLine(e)
  }

  /** The text customHandleError shows for `error`; None when it shows nothing. */
  function NoticeText(error: Exception, defaultMessage: string := DefaultFailureMessage): (r: Option<string>)
    // a user cancel produces no notice, and it is the only thing that does not
    ensures r.None? <==> error == Cancel
    // an HttpError is described by its own status and message
    ensures error.HttpFailure? ==> r == Some(HttpErrorNotice(error.error))
    // anything else shows its own non-empty message, or else the default text
    ensures r.Some? && !error.HttpFailure? ==>
      if error.ErrorObject? && error.message.Some? && error.message.value != ""
      then r.value == error.message.value
      else r.value == defaultMessage
  {
    if error == Cancel then None
    else if error.HttpFailure? then Some(HttpErrorNotice(error.error))
    else if error.ErrorObject? && error.message.Some? && error.message.value != "" then Some(error.message.value)
    else Some(defaultMessage)
  }

  /**
   * Validation messages appear in the map's order: a map with one more entry
   * gives the same notice followed by ", " and that entry's message.
   */
  lemma ValidationMessagesInOrder(e: HttpError, entries: seq<(string, Value)>, key: string, message: Value)
    requires entries != []
    requires e.validation == Obj(entries + [(key, message)])
    ensures HttpErrorNotice(e)
         == HttpErrorNotice(e.(validation := Obj(entries))) + ", " + ElementString(message)
  {
    ObjectValuesAppend(entries, key, message);
    ArrayJoinSnoc(ObjectValues(Obj(entries)), message, ", ");
  }

  /** A single validation entry gives the status line, the heading and that message. */
  lemma OneValidationMessage(e: HttpError, key: string, message: string)
    requires e.validation == Obj([(key, Str(message))])
    ensures HttpErrorNotice(e) == StatusLine(e) + ValidationHeading + message
  {
    assert ObjectValues(e.validation) == [Str(message)];
    assert [Str(message)][1..] == [];
    assert ElementString(Str(message)) == message;
    assert ElementStrings([Str(message)]) == [message];
  }

  /**
   * `error?.message` for any thrown value other than an HttpError: a non-empty
   * string message is shown; a falsy message, or none, gives the default text.
   */
  lemma ThrownValueNotice(v: Value, defaultMessage: string)
    ensures v == Str("cancel") ==> NoticeText(Classify(v), defaultMessage).None?
    ensures Prop(v, "message").Str? && Prop(v, "message").s != "" ==>
      NoticeText(Classify(v), defaultMessage) == Some(Prop(v, "message").s)
    ensures v != Str("cancel") && !Truthy(Prop(v, "message")) ==>
      NoticeText(Classify(v), defaultMessage) == Some(defaultMessage)
  {
    if v.Obj? && Prop(v, "message").Str? {
      assert Classify(v) == ErrorObject(Some(Prop(v, "message").s));
    }
  }

  /** customHandleError(error, defaultMessage): at most one ElMessage.error call, none for a cancel. */
  method CustomHandleError(screen: Screen, error: Exception, defaultMessage: string := DefaultFailureMessage)
    modifies screen
    ensures error == Cancel ==> screen.events == old(screen.events)
    ensures error != Cancel ==>
      screen.events == old(screen.events) + [ErrorNotice(NoticeText(error, defaultMessage).value)]
  {
    if error == Cancel {
      return;
    }
    var errorMessage := NoticeText(error, defaultMessage).value;
    screen.ShowError(errorMessage);
  }
}
