/**
 * The two UI collaborators the core calls: Element Plus's ElMessage (a toast
 * notice) and vue-router's `router.replace`. The screen records, in call order,
 * what was shown and where it navigated; rendering itself is outside the model.
 */
module Ui {

  datatype UiEvent =
    | ErrorNotice(text: string)
    | WarningNotice(text: string)
    | RouteReplaced(path: string)

  class Screen {
    /** every ElMessage.error, ElMessage.warning and router.replace call so far, oldest first */
    var events: seq<UiEvent>

    constructor ()
      ensures events == []
    {
      events := [];
    }

    /** `ElMessage.error(text)`. */
    method ShowError(text: string)
      modifies this
      ensures events == old(events) + [ErrorNotice(text)]
    {
      events := events + [ErrorNotice(text)];
    }

    /** `ElMessage.warning(text)`. */
    method ShowWarning(text: string)
      modifies this
      ensures events == old(events) + [WarningNotice(text)]
    {
      events := events + [WarningNotice(text)];
    }

    /** `router.replace(path)`. */
    method Replace(path: string)
      modifies this
      ensures events == old(events) + [RouteReplaced(path)]
    {
      events := events + [RouteReplaced(path)];
    }
  }
}
