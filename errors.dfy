/**
 * The error-reporting service: while enabled, a reported error becomes an
 * error snackbar whose action opens the error report; while disabled, it is
 * thrown back to the caller.
 */
module Errors {
  import opened Common

  /** A user-facing text: literal, or the translation of a key. */
  datatype Text = Literal(text: string) | Translated(key: string)

  /**
   * What may be reported: a string, a thrown value with or without a
   * `message` property, or `null`/`undefined` (whose `message` cannot be read).
   */
  datatype ErrorReason = Message(text: string) | Thrown(message: Option<string>) | Nullish

  /** `ErrorReport`: a title, and the error itself when it was not a string. */
  datatype ErrorReport = ErrorReport(title: Text, error: Option<ErrorReason>)

  /** An error snackbar, with the report its "view details" action opens. */
  datatype Snackbar = Snackbar(message: Text, details: ErrorReport)

  /** How `report` ends: a snackbar was shown, the reason was thrown back, or reading its message threw. */
  datatype Outcome = Reported | Rethrown(reason: ErrorReason) | MessageUnreadable

  const NoticeKey: string := "errors.notice"
  const UnknownKey: string := "errors.unknown"

  /**
   * `getErrorReport`: a string is its own title; any other value is kept as
   * the error, titled by its message or the "unknown error" text. None when
   * the reason is `null` or `undefined`.
   */
  function ErrorReportOf(reason: ErrorReason): (report: Option<ErrorReport>)
    ensures report.None? <==> reason.Nullish?
    ensures reason.Message? ==> report == Some(ErrorReport(Literal(reason.text), None))
    ensures report.Some? ==> (report.value.error.None? <==> reason.Message?)
    ensures report.Some? && report.value.error.Some? ==> report.value.error.value == reason
    ensures reason.Thrown? ==>
      (report.value.title == if reason.message.Some? then Literal(reason.message.value) else Translated(UnknownKey))
  {
    match reason
    case Message(text) => Some(ErrorReport(Literal(text), None))
    case Thrown(message) =>
      Some(ErrorReport(if message.Some? then Literal(message.value) else Translated(UnknownKey), Some(reason)))
    case Nullish => None
  }

  /** The snackbar text: the given message, else the generic notice. */
  function NoticeText(message: Option<string>): (text: Text)
    ensures message.Some? ==> text == Literal(message.value)
    ensures message.None? ==> text == Translated(NoticeKey)
  {
    if message.Some? then Literal(message.value) else Translated(NoticeKey)
  }

  class ErrorsService {
    var enabled: bool
    var snackbars: seq<Snackbar>
    /** Reports opened by `inspect`. */
    var modals: seq<ErrorReport>
    /** Reasons logged to the console in development. */
    var logged: seq<ErrorReason>

    /** A new service: enabled, nothing shown. */
    constructor ()
      ensures enabled && snackbars == [] && modals == [] && logged == []
    {
      enabled := true;
      snackbars := [];
      modals := [];
      logged := [];
    }

    method Enable()
      modifies this`enabled
      ensures enabled
    {
      enabled := true;
    }

    method Disable()
      modifies this`enabled
      ensures !enabled
    {
      enabled := false;
    }

    /** `inspect`: opens the error report. False when the reason's message cannot be read. */
    method Inspect(reason: ErrorReason) returns (ok: bool)
      modifies this`modals
      ensures ok <==> !reason.Nullish?
      ensures ok ==> modals == old(modals) + [ErrorReportOf(reason).value]
      ensures !ok ==> modals == old(modals)
    {
      var report := ErrorReportOf(reason);
      if report.None? {
        return false;
      }
      modals := modals + [report.value];
      ok := true;
    }

    /**
     * `report`: logs the reason in development; throws it back when
     * disabled; otherwise shows an error snackbar with the given message or
     * the generic notice, carrying the reason's report.
     */
    method Report(reason: ErrorReason, message: Option<string>, isDevelopment: bool) returns (outcome: Outcome)
      modifies this`snackbars, this`logged
      ensures logged == old(logged) + (if isDevelopment then [reason] else [])
      ensures !enabled ==> outcome == Rethrown(reason) && snackbars == old(snackbars)
      ensures enabled && reason.Nullish? ==> outcome == MessageUnreadable && snackbars == old(snackbars)
      ensures enabled && !reason.Nullish? ==>
        && outcome == Reported
        && snackbars == old(snackbars) + [Snackbar(NoticeText(message), ErrorReportOf(reason).value)]
    {
      if isDevelopment {
        logged := logged + [reason];
      }
      if !enabled {
        return Rethrown(reason);
      }
      var report := ErrorReportOf(reason);
      if report.None? {
        return MessageUnreadable;
      }
      snackbars := snackbars + [Snackbar(NoticeText(message), report.value)];
      outcome := Reported;
    }
  }

  /** A disabled service throws reported errors back; enabling it again restores the snackbar. */
  method DisableThenEnable(reason: ErrorReason) returns (first: Outcome, second: Outcome)
    requires !reason.Nullish?
    ensures first == Rethrown(reason) && second == Reported
  {
    var errors := new ErrorsService();
    errors.Disable();
    first := errors.Report(reason, None, false);
    errors.Enable();
    second := errors.Report(reason, None, false);
  }
}
