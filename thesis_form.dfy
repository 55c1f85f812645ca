/**
 * The thesis form's submission counter (scripts/thesis.js). The page keeps a
 * count, the submit control's disabled flag, the counter text, the two form
 * fields and the notification; the submit handler updates them according to
 * the outcome of the request: an OK response, an error response, or a failed
 * request.
 */
module ThesisForm {
  import opened Wrappers
  import opened PageText

  /** The number of theses after which the client gives up. */
  const LIMIT: nat := 5

  /** The server message that makes the client disable the control (scripts/thesis.js:49). */
  const LIMIT_MESSAGE := "не более 5"

  const SENT_TEXT := "✅ Тезис успешно отправлен!"
  const NETWORK_TEXT := "❌ Ошибка отправки. Попробуйте позже."

  datatype Color = Green | Red

  datatype Notice = Notice(text: string, color: Color)

  /** The state the script owns, as one value. */
  datatype Page = Page(
    count: nat,
    disabled: bool,
    counter: string,
    title: string,
    abstractText: string,
    notice: Option<Notice>)

  /**
   * What came back from `fetch('/thesis/submit')` with a JSON body: an OK
   * response, a non-OK response with the body's `message` and `error`
   * fields, or a request that threw.
   */
  datatype Response = Accepted | Refused(message: Option<string>, error: Option<string>) | Failed

  /** JavaScript truthiness of an optional string field. */
  predicate Truthy(field: Option<string>) {
    field.Some? && field.value != ""
  }

  /** `result.message || result.error`, converted to a string as `+` does (`undefined` when absent). */
  function ErrorText(message: Option<string>, error: Option<string>): string {
    if Truthy(message) then message.value
    else if error.Some? then error.value
    else "undefined"
  }

  /** `result.message && result.message.includes("не более 5")`. */
  predicate IsLimitMessage(message: Option<string>) {
    Truthy(message) && Contains(message.value, LIMIT_MESSAGE)
  }

  /**
   * The page right after DOMContentLoaded (scripts/thesis.js:10-11): the
   * script only ever sets the flag, so below the limit the control keeps
   * whatever state the template rendered it in.
   */
  function Load(counterText: string, renderedDisabled: bool, title: string, abstractText: string): Page {
    var n := FirstNumber(counterText);
    Page(n, renderedDisabled || n >= LIMIT, counterText, title, abstractText, None)
  }

  /** One run of the submit handler with the given outcome (scripts/thesis.js:30-63). */
  function Step(p: Page, r: Response): Page {
    match r
    case Accepted =>
      var n := p.count + 1;
      var q := p.(notice := Some(Notice(SENT_TEXT, Green)), title := "", abstractText := "",
                  count := n, counter := ProgressLabel(n));
      if n >= LIMIT then q.(disabled := true, counter := LIMIT_LABEL) else q
    case Refused(message, error) =>
      var q := p.(notice := Some(Notice("❌ " + ErrorText(message, error), Red)));
      if IsLimitMessage(message) then q.(disabled := true, counter := LIMIT_LABEL) else q
    case Failed =>
      p.(notice := Some(Notice(NETWORK_TEXT, Red)))
  }

  /**
   * A sequence of submit attempts as the browser delivers them: a disabled
   * submit control neither submits the form by click nor by implicit
   * submission, so an attempt on a disabled page changes nothing.
   */
  function Run(p: Page, rs: seq<Response>): Page
    decreases |rs|
  {
    if rs == [] then p
    else Run(if p.disabled then p else Step(p, rs[0]), rs[1..])
  }

  /** A count of 5 or more always comes with a disabled control. */
  predicate LimitEnforced(p: Page) {
    p.count >= LIMIT ==> p.disabled
  }

  /**
   * The control starts disabled exactly when it was rendered disabled or the
   * counter text's first number is 5 or more.
   */
  lemma LoadDisablesAtLimit(counterText: string, renderedDisabled: bool, title: string, abstractText: string)
    ensures Load(counterText, renderedDisabled, title, abstractText).count == FirstNumber(counterText)
    ensures Load(counterText, renderedDisabled, title, abstractText).disabled <==>
      renderedDisabled || FirstNumber(counterText) >= LIMIT
    ensures LimitEnforced(Load(counterText, renderedDisabled, title, abstractText))
  {
  }

  /** The count grows by exactly one on an OK response and never changes otherwise. */
  lemma CountMovesOnlyWhenAccepted(p: Page, r: Response)
    ensures Step(p, r).count == if r.Accepted? then p.count + 1 else p.count
  {
  }

  /**
   * After an OK response the form is cleared and the counter text reads back as the
   * new count below the limit and as 5 from the limit on; the control is
   * disabled from the limit on and otherwise keeps its state.
   */
  lemma AcceptedUpdatesLabel(p: Page)
    ensures var q := Step(p, Accepted);
      && q.title == "" && q.abstractText == ""
      && (q.count < LIMIT ==> q.counter == ProgressLabel(q.count) && FirstNumber(q.counter) == q.count && q.disabled == p.disabled)
      && (q.count >= LIMIT ==> q.counter == LIMIT_LABEL && FirstNumber(q.counter) == LIMIT && q.disabled)
  {
    var n := p.count + 1;
    var q := Step(p, Accepted);
    assert q.count == n && q.title == "" && q.abstractText == "";
    if n < LIMIT {
      assert q.counter == ProgressLabel(n);
      ProgressLabelRoundTrip(n);
    } else {
      assert q.counter == LIMIT_LABEL;
      LimitLabelReadsFive();
    }
  }

  /**
   * An error response leaves the count and the form alone and disables the
   * control exactly when it was disabled or the message is the limit message.
   */
  lemma RefusedDisablesOnlyOnLimitMessage(p: Page, message: Option<string>, error: Option<string>)
    ensures var q := Step(p, Refused(message, error));
      && q.count == p.count && q.title == p.title && q.abstractText == p.abstractText
      && (q.disabled <==> p.disabled || IsLimitMessage(message))
      && (q.counter == if IsLimitMessage(message) then LIMIT_LABEL else p.counter)
  {
  }

  /**
   * The limit message writes the limit text but leaves the count alone, so
   * below the limit the counter text no longer reads back as the count.
   */
  lemma LimitMessageLeavesCountBehind(p: Page, message: string, error: Option<string>)
    requires p.count < LIMIT && Contains(message, LIMIT_MESSAGE)
    ensures var q := Step(p, Refused(Some(message), error));
      q.disabled && q.count == p.count && FirstNumber(q.counter) == LIMIT && FirstNumber(q.counter) != q.count
  {
    assert message != "";
    LimitLabelReadsFive();
  }

  /** A failed request changes nothing but the notification. */
  lemma FailedKeepsCounter(p: Page)
    ensures Step(p, Failed) == p.(notice := Some(Notice(NETWORK_TEXT, Red)))
  {
  }

  /** Nothing re-enables the control: once disabled, it stays disabled. */
  lemma DisabledIsFinal(p: Page, r: Response)
    requires p.disabled
    ensures Step(p, r).disabled
  {
  }

  /** Every outcome keeps "5 or more means disabled". */
  lemma StepKeepsLimitEnforced(p: Page, r: Response)
    requires LimitEnforced(p)
    ensures LimitEnforced(Step(p, r))
  {
  }

  /**
   * Over any sequence of attempts, from any page, the control never comes
   * back once disabled and the count never decreases.
   */
  lemma {:induction false} RunMonotone(p: Page, rs: seq<Response>)
    ensures p.disabled ==> Run(p, rs).disabled
    ensures Run(p, rs).count >= p.count
    decreases |rs|
  {
    if rs != [] {
      var q := if p.disabled then p else Step(p, rs[0]);
      if !p.disabled {
        CountMovesOnlyWhenAccepted(p, rs[0]);
      }
      RunMonotone(q, rs[1..]);
    }
  }

  /** A page that starts at most at the limit, with the limit enforced, never counts past it. */
  lemma {:induction false} RunStaysWithinLimit(p: Page, rs: seq<Response>)
    requires LimitEnforced(p) && p.count <= LIMIT
    ensures LimitEnforced(Run(p, rs)) && Run(p, rs).count <= LIMIT
    decreases |rs|
  {
    if rs != [] {
      var q := if p.disabled then p else Step(p, rs[0]);
      if !p.disabled {
        StepKeepsLimitEnforced(p, rs[0]);
        CountMovesOnlyWhenAccepted(p, rs[0]);
      }
      RunStaysWithinLimit(q, rs[1..]);
    }
  }

  /**
   * Five accepted submissions from an empty counter on an enabled control
   * disable it; a sixth attempt is not sent.
   */
  lemma FifthAcceptedDisables(title: string, abstractText: string)
    ensures var p := Run(Load(ProgressLabel(0), false, title, abstractText), [Accepted, Accepted, Accepted, Accepted, Accepted]);
      p.count == 5 && p.disabled && p.counter == LIMIT_LABEL
    ensures var p := Run(Load(ProgressLabel(0), false, title, abstractText), [Accepted, Accepted, Accepted, Accepted, Accepted, Accepted]);
      p.count == 5 && p.disabled
    ensures var p0 := Load(ProgressLabel(0), false, title, abstractText);
      Run(p0, [Accepted, Accepted, Accepted, Accepted, Accepted, Accepted]) == Run(p0, [Accepted, Accepted, Accepted, Accepted, Accepted])
  {
    var p0 := Load(ProgressLabel(0), false, title, abstractText);
    ProgressLabelRoundTrip(0);
    var p4 := Run(p0, [Accepted, Accepted, Accepted, Accepted]);
    assert p4.count == 4 && !p4.disabled;
    var p5 := Step(p4, Accepted);
    assert p5.count == 5 && p5.disabled;
    assert Run(p0, [Accepted, Accepted, Accepted, Accepted, Accepted]) == p5;
    assert Run(p0, [Accepted, Accepted, Accepted, Accepted, Accepted, Accepted]) == p5;
  }

  /** The page's state as the script holds it in its variables and DOM fields. */
  class ThesisPage {
    var count: nat
    var disabled: bool
    var counter: string
    var title: string
    var abstractText: string
    var notice: Option<Notice>

    function View(): Page
      reads this
    {
      Page(count, disabled, counter, title, abstractText, notice)
    }

    /** Counter initialisation on DOMContentLoaded (scripts/thesis.js:9-11). */
    constructor (counterText: string, renderedDisabled: bool, formTitle: string, formAbstract: string)
      ensures View() == Load(counterText, renderedDisabled, formTitle, formAbstract)
    {
      counter, title, abstractText, notice := counterText, formTitle, formAbstract, None;
      var n := FirstNumber(counterText);
      count, disabled := n, renderedDisabled;
      if n >= LIMIT {
        disabled := true;
      }
    }

    /** The handler's `response.ok` branch (scripts/thesis.js:30-43). */
    method OnAccepted()
      modifies this
      ensures View() == Step(old(View()), Accepted)
    {
      notice := Some(Notice(SENT_TEXT, Green));
      title, abstractText := "", "";
      count := count + 1;
      counter := ProgressLabel(count);
      if count >= LIMIT {
        disabled := true;
        counter := LIMIT_LABEL;
      }
    }

    /** The handler's non-OK branch (scripts/thesis.js:44-53). */
    method OnRefused(message: Option<string>, error: Option<string>)
      modifies this
      ensures View() == Step(old(View()), Refused(message, error))
    {
      notice := Some(Notice("❌ " + ErrorText(message, error), Red));
      if Truthy(message) && Contains(message.value, LIMIT_MESSAGE) {
        disabled := true;
        counter := LIMIT_LABEL;
      }
    }

    /** The handler's `catch` branch (scripts/thesis.js:58-63). */
    method OnFailed()
      modifies this
      ensures View() == Step(old(View()), Failed)
    {
      notice := Some(Notice(NETWORK_TEXT, Red));
    }
  }
}
