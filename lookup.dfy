/**
 * What one call of `WebdriverClient.find_element` does, as a function of
 * the client's state and of what the outside world answers: the browser
 * session (the lookup and the scripts run on the element found), the
 * monotonic clock, the wall clock and the current greenlet.
 *
 * `Find` follows the source's recursion on `retry`; `FindClosed` says the
 * same without recursion, in terms of how many lookups the call makes
 * (`AttemptsFrom`) and how long they take (`Took`). `FindIsClosed` proves
 * the two equal, and the lemmas after it state what every call promises.
 */
module Lookup {
  import opened Wrappers
  import opened Text
  import opened Naming

  /** The exception classes the wrapper tells apart. */
  datatype ErrorKind =
    | NoSuchElement    // NoSuchElementException, a subclass of WebDriverException
    | OtherWebDriver   // any other WebDriverException
    | NonWebDriver     // any other Exception

  /** `isinstance(e, WebDriverException)`. */
  predicate IsWebDriverException(k: ErrorKind)
  {
    k == NoSuchElement || k == OtherWebDriver
  }

  /** An exception raised by the session: its class and its `args`. */
  datatype Error = Error(kind: ErrorKind, args: seq<string>)

  /** A handle on a page element the session found. */
  datatype Element = Element(handle: nat)

  /** What `super().find_element(by=by, value=value)` does. */
  datatype FindReply = Located(element: Element) | NotLocated(error: Error)

  /**
   * Everything the outside world answers during one lookup and, should it be
   * the last failing one, in the failure handling after it.
   */
  datatype Answer = Answer(
    find: FindReply,
    scroll: Option<Error>,         // raised by the scrollIntoView script, if anything
    highlight: Option<Error>,      // raised by the border scripts (run only when not headless)
    took: nat,                     // monotonic clock ticks (ms) the attempt took, sleeps included
    implicitWait: WaitReply,       // what reading the implicit wait back gives
    timestamp: string,             // datetime.now() without microseconds, isoformat()
    fiber: nat)                    // greenlet minimal_ident, 0 outside a greenlet

  /**
   * The implicit wait as the message rewrite sees it: `GET_TIMEOUTS` can
   * raise (or its reply lack the value), the value can fail to divide by
   * 1000, or it reads as some number of seconds.
   */
  datatype WaitReply =
    | Unreadable             // raised at the `execute` call or the lookup in its reply
    | NotNumeric             // raised by `implicit_wait_time/1000`
    | Seconds(text: string)  // `implicit_wait_time/1000` as the f-string renders it

  /**
   * The exception that leaves the `try` block of one attempt, if any: the
   * lookup's own, else the scroll script's, else (unless headless, where
   * the border scripts do not run) the highlight's.
   */
  function AttemptError(a: Answer, headless: bool): (r: Option<Error>)
    ensures r.None? <==> a.find.Located? && a.scroll.None? && (headless || a.highlight.None?)
    ensures a.find.NotLocated? ==> r == Some(a.find.error)
    ensures a.find.Located? && a.scroll.Some? ==> r == a.scroll
    ensures a.find.Located? && a.scroll.None? && !headless ==> r == a.highlight
  {
    match a.find
    case NotLocated(e) => Some(e)
    case Located(_) =>
      if a.scroll.Some? then a.scroll
      else if !headless then a.highlight
      else None
  }

  /** The local `element` after the `try` block: set as soon as the lookup itself succeeded. */
  function FoundElement(a: Answer): Option<Element>
  {
    if a.find.Located? then Some(a.find.element) else None
  }

  /** The events fired on `environment.events`. */
  datatype Event =
    | RequestSuccess(requestType: string, name: string, responseTime: int, responseLength: nat)
    | RequestFailure(requestType: string, name: string, responseTime: int, exception: string, responseLength: nat)

  /** Why a call raised. */
  datatype Raise =
    | NameAndPrefix          // "dont specify both name and prefix"
    | Reraise(error: Error)  // the last attempt's exception, not a WebDriverException
    | NoArgs(error: Error)   // IndexError from `e.args[0]` on an exception without args

  /** How a call ends: it returns an element or `None`, or it raises. */
  datatype Return = Returned(element: Option<Element>) | Raised(raise: Raise)

  /**
   * The client's state as a lookup sees it: the `start_time` field, the
   * monotonic clock, how many lookups the session has answered, the events
   * fired and the screenshot files written so far.
   */
  datatype Session = Session(
    startTime: Option<int>,
    now: int,
    lookups: nat,
    events: seq<Event>,
    screenshots: seq<string>)

  /** `not self.start_time`: Python treats `None` and `0` alike. */
  predicate Unset(t: Option<int>)
  {
    t.None? || t.value == 0
  }

  /** The clock reading a call measures from: the recorded start, or now when none is recorded. */
  function StartOf(s: Session): int
  {
    if Unset(s.startTime) then s.now else s.startTime.value
  }

  /**
   * A state a call can start from: the monotonic clock reads a positive
   * value and a recorded start is not later than now.
   */
  predicate Ready(s: Session)
  {
    s.now > 0 && (s.startTime.Some? ==> 0 < s.startTime.value <= s.now)
  }

  /** The text the rewrite drops from a NoSuchElementException's message. */
  const LocateMarker: string := "Unable to locate element: "
  /** The text the rewrite replaces with the implicit wait. */
  const SessionMarker: string := "\n  (Session info: "

  /** What the rewrite puts in place of `SessionMarker`. */
  function WaitedText(seconds: string): string
  {
    " (waited " + seconds + "s, "
  }

  /**
   * The exception text reported for a failure. Only a NoSuchElementException
   * is rewritten. Its first replacement is kept even when the second one
   * raises, since the bare `except` only stops the rewrite.
   */
  function RewriteMessage(kind: ErrorKind, message: string, implicitWait: WaitReply): (r: string)
    ensures kind != NoSuchElement || implicitWait.Unreadable? ==> r == message
  {
    if kind != NoSuchElement then message
    else
      match implicitWait
      case Unreadable => message
      case NotNumeric => ReplaceAll(message, LocateMarker, "")
      case Seconds(w) => ReplaceAll(ReplaceAll(message, LocateMarker, ""), SessionMarker, WaitedText(w))
  }

  /**
   * The `else:` branch: the attempt succeeded. Only the start and the
   * events change: one success event timed from `t0`, and the element found
   * is returned.
   */
  function Succeeded(s: Session, t0: int, name: string, a: Answer): (r: (Session, Return))
    requires a.find.Located?
    ensures r.0 == s.(startTime := None, events := r.0.events)
    ensures r.0.events == s.events + [RequestSuccess("find", name, s.now - t0, 0)]
    ensures r.1 == Returned(Some(a.find.element))
  {
    (s.(startTime := None,
        events := s.events + [RequestSuccess("find", name, s.now - t0, 0)]),
     Returned(Some(a.find.element)))
  }

  /**
   * The `except` branch once retries are exhausted. The start is unset and
   * the clock and lookup count are kept. Without `args` nothing is written or
   * fired and `IndexError` is raised. Otherwise one screenshot and one
   * failure event carrying the rewritten first argument are added, and the
   * call returns what the attempt found exactly when the error is a
   * WebDriverException, re-raising it otherwise.
   */
  function Failed(s: Session, t0: int, name: string, a: Answer, e: Error): (r: (Session, Return))
    ensures r.0.startTime.None? && r.0.now == s.now && r.0.lookups == s.lookups
    ensures |e.args| == 0 ==> r.0 == s.(startTime := None) && r.1 == Raised(NoArgs(e))
    ensures |e.args| > 0 ==>
              && r.0.screenshots == s.screenshots + [ScreenshotFileName(a.timestamp, name, a.fiber)]
              && r.0.events == s.events + [RequestFailure("find", name, s.now - t0,
                                                          RewriteMessage(e.kind, e.args[0], a.implicitWait), 0)]
    ensures r.1.Returned? <==> |e.args| > 0 && IsWebDriverException(e.kind)
    ensures r.1.Returned? ==> r.1.element == FoundElement(a)
    ensures r.1.Raised? && |e.args| > 0 ==> r.1.raise == Reraise(e)
  {
    var s := s.(startTime := None);
    if |e.args| == 0 then (s, Raised(NoArgs(e)))
    else
      var message := RewriteMessage(e.kind, e.args[0], a.implicitWait);
      var file := ScreenshotFileName(a.timestamp, name, a.fiber);
      (s.(screenshots := s.screenshots + [file],
          events := s.events + [RequestFailure("find", name, s.now - t0, message, 0)]),
       if IsWebDriverException(e.kind) then Returned(FoundElement(a)) else Raised(Reraise(e)))
  }

  /** The end of a call after its last attempt `a`, on state `s`, started at clock reading `t0`. */
  function Conclude(s: Session, t0: int, name: string, a: Answer, headless: bool): (Session, Return)
  {
    match AttemptError(a, headless)
    case None => Succeeded(s, t0, name, a)
    case Some(e) => Failed(s, t0, name, a, e)
  }

  /** The measure of the retry recursion: `retry` climbs to 2. */
  function RetriesLeft(retry: int): nat
  {
    if retry < 2 then 2 - retry else 0
  }

  /**
   * The state after an attempt's start has been recorded (unless one
   * already was) and its lookup has been answered.
   */
  function AfterAttempt(answer: nat -> Answer, s: Session): Session
  {
    s.(startTime := Some(StartOf(s)), now := s.now + answer(s.lookups).took, lookups := s.lookups + 1)
  }

  /**
   * `find_element(by, value, name, prefix, retry)` on session state `s`,
   * given the world's answer to the session's `k`-th lookup as `answer(k)`.
   * A retry passes on the effective name and the default empty prefix.
   */
  function Find(answer: nat -> Answer, headless: bool, s: Session,
                strategy: string, value: string, name: string, prefix: string, retry: int): (r: (Session, Return))
    ensures r.1 == Raised(NameAndPrefix) <==> name != "" && prefix != ""
    ensures !(name != "" && prefix != "") ==> r.0.startTime.None?
    decreases RetriesLeft(retry)
  {
    if name != "" && prefix != "" then (s, Raised(NameAndPrefix))
    else
      var name := EffectiveName(name, prefix, strategy, value);
      var a := answer(s.lookups);
      if AttemptError(a, headless).Some? && retry < 2 then
        Find(answer, headless, AfterAttempt(answer, s), strategy, value, name, "", retry + 1)
      else Conclude(AfterAttempt(answer, s), StartOf(s), name, a, headless)
  }

  /**
   * How many lookups a call makes when its first one is the session's `k`-th:
   * attempts go on while they fail and `retry` is below 2.
   */
  function AttemptsFrom(answer: nat -> Answer, headless: bool, k: nat, retry: int): (n: nat)
    ensures 1 <= n
    ensures retry >= 2 ==> n == 1
    ensures retry < 2 ==> n <= 3 - retry
    decreases RetriesLeft(retry)
  {
    if AttemptError(answer(k), headless).None? || retry >= 2 then 1
    else 1 + AttemptsFrom(answer, headless, k + 1, retry + 1)
  }

  /**
   * Every lookup of a call but the last fails, and the last one either
   * succeeds or uses up the retries.
   */
  lemma {:induction false} AttemptsStopAtFirstSuccess(answer: nat -> Answer, headless: bool, k: nat, retry: int)
    ensures var n := AttemptsFrom(answer, headless, k, retry);
            && (forall j :: k <= j < k + n - 1 ==> AttemptError(answer(j), headless).Some?)
            && (AttemptError(answer(k + n - 1), headless).None? || retry + n - 1 >= 2)
    decreases RetriesLeft(retry)
  {
    if !(AttemptError(answer(k), headless).None? || retry >= 2) {
      AttemptsStopAtFirstSuccess(answer, headless, k + 1, retry + 1);
    }
  }

  /** The clock ticks the lookups `k` .. `k + n - 1` take together. */
  function Took(answer: nat -> Answer, k: nat, n: nat): nat
    decreases n
  {
    if n == 0 then 0 else answer(k).took + Took(answer, k + 1, n - 1)
  }

  /**
   * The same call without recursion: all its lookups happen, the clock moves
   * on by their total duration, and the last one decides the outcome.
   */
  function FindClosed(answer: nat -> Answer, headless: bool, s: Session,
                      strategy: string, value: string, name: string, prefix: string, retry: int): (Session, Return)
  {
    if name != "" && prefix != "" then (s, Raised(NameAndPrefix))
    else Settle(answer, headless, s, StartOf(s), EffectiveName(name, prefix, strategy, value), retry)
  }

  /** The lookups of a call that started at clock reading `t0`, and how the last one ends it. */
  function Settle(answer: nat -> Answer, headless: bool, s: Session, t0: int, name: string, retry: int): (Session, Return)
  {
    Conclude(Settled(answer, headless, s, t0, retry), t0, name, LastAttempt(answer, headless, s.lookups, retry), headless)
  }

  /** The state once all the lookups of a call that started at `t0` are answered. */
  function Settled(answer: nat -> Answer, headless: bool, s: Session, t0: int, retry: int): Session
  {
    var n := AttemptsFrom(answer, headless, s.lookups, retry);
    s.(startTime := Some(t0), now := s.now + Took(answer, s.lookups, n), lookups := s.lookups + n)
  }

  /** The recursive definition and the closed form agree on every state a call can start from. */
  lemma {:induction false} FindIsClosed(answer: nat -> Answer, headless: bool, s: Session,
                                        strategy: string, value: string, name: string, prefix: string, retry: int)
    requires Ready(s)
    ensures Find(answer, headless, s, strategy, value, name, prefix, retry)
         == FindClosed(answer, headless, s, strategy, value, name, prefix, retry)
    decreases RetriesLeft(retry)
  {
    if !(name != "" && prefix != "") {
      var nm := EffectiveName(name, prefix, strategy, value);
      var s1 := AfterAttempt(answer, s);
      if AttemptError(answer(s.lookups), headless).Some? && retry < 2 {
        FindRetries(answer, headless, s, strategy, value, name, prefix, retry);
        FindIsClosed(answer, headless, s1, strategy, value, nm, "", retry + 1);
        ClosedAfterFailedAttempt(answer, headless, s, strategy, value, nm, retry);
      } else {
        FindStops(answer, headless, s, strategy, value, name, prefix, retry);
        SettleAtOnce(answer, headless, s, StartOf(s), nm, retry);
      }
    }
  }

  /** A failed attempt with retries left: the call is its retry. */
  lemma FindRetries(answer: nat -> Answer, headless: bool, s: Session,
                    strategy: string, value: string, name: string, prefix: string, retry: int)
    requires !(name != "" && prefix != "")
    requires AttemptError(answer(s.lookups), headless).Some? && retry < 2
    ensures Find(answer, headless, s, strategy, value, name, prefix, retry)
         == Find(answer, headless, AfterAttempt(answer, s), strategy, value,
                 EffectiveName(name, prefix, strategy, value), "", retry + 1)
  {
  }

  /** An attempt that succeeds, or fails with no retry left, ends the call. */
  lemma FindStops(answer: nat -> Answer, headless: bool, s: Session,
                  strategy: string, value: string, name: string, prefix: string, retry: int)
    requires !(name != "" && prefix != "")
    requires !(AttemptError(answer(s.lookups), headless).Some? && retry < 2)
    ensures Find(answer, headless, s, strategy, value, name, prefix, retry)
         == Conclude(AfterAttempt(answer, s), StartOf(s), EffectiveName(name, prefix, strategy, value),
                     answer(s.lookups), headless)
  {
  }

  /** When the first attempt ends the call, settling takes that one lookup. */
  lemma SettleAtOnce(answer: nat -> Answer, headless: bool, s: Session, t0: int, name: string, retry: int)
    requires t0 == StartOf(s)
    requires !(AttemptError(answer(s.lookups), headless).Some? && retry < 2)
    ensures Settle(answer, headless, s, t0, name, retry)
         == Conclude(AfterAttempt(answer, s), t0, name, answer(s.lookups), headless)
  {
    assert AttemptsFrom(answer, headless, s.lookups, retry) == 1;
    assert Took(answer, s.lookups, 1) == answer(s.lookups).took;
    assert Settled(answer, headless, s, t0, retry) == AfterAttempt(answer, s);
  }

  /**
   * After a failed first attempt with retries left, the closed form of the
   * retry, started from the state that attempt left, settles the whole call.
   */
  lemma ClosedAfterFailedAttempt(answer: nat -> Answer, headless: bool, s: Session,
                                 strategy: string, value: string, name: string, retry: int)
    requires Ready(s) && name != ""
    requires AttemptError(answer(s.lookups), headless).Some? && retry < 2
    ensures FindClosed(answer, headless, AfterAttempt(answer, s), strategy, value, name, "", retry + 1)
         == Settle(answer, headless, s, StartOf(s), name, retry)
  {
    var s1 := AfterAttempt(answer, s);
    assert StartOf(s1) == StartOf(s);
    assert EffectiveName(name, "", strategy, value) == name;
    SettleAfterFailedAttempt(answer, headless, s, StartOf(s), name, retry);
  }

  /** Settling after a failed first attempt is settling the retry from the state it left. */
  lemma SettleAfterFailedAttempt(answer: nat -> Answer, headless: bool, s: Session, t0: int, name: string, retry: int)
    requires AttemptError(answer(s.lookups), headless).Some? && retry < 2
    ensures Settle(answer, headless, AfterAttempt(answer, s), t0, name, retry + 1)
         == Settle(answer, headless, s, t0, name, retry)
  {
    SettledAfterFailedAttempt(answer, headless, s, t0, retry);
  }

  /** A failed attempt with retries left is followed by the retry's lookups, ending at the same last one. */
  lemma SettledAfterFailedAttempt(answer: nat -> Answer, headless: bool, s: Session, t0: int, retry: int)
    requires AttemptError(answer(s.lookups), headless).Some? && retry < 2
    ensures Settled(answer, headless, AfterAttempt(answer, s), t0, retry + 1) == Settled(answer, headless, s, t0, retry)
    ensures LastAttempt(answer, headless, s.lookups + 1, retry + 1) == LastAttempt(answer, headless, s.lookups, retry)
  {
    var k := s.lookups;
    var n1 := AttemptsFrom(answer, headless, k + 1, retry + 1);
    assert AttemptsFrom(answer, headless, k, retry) == 1 + n1;
    assert Took(answer, k, 1 + n1) == answer(k).took + Took(answer, k + 1, n1);
    var s1 := AfterAttempt(answer, s);
    assert Settled(answer, headless, s1, t0, retry + 1).now == Settled(answer, headless, s, t0, retry).now;
  }

  /** The last lookup a call makes when its first one is the session's `k`-th. */
  function LastAttempt(answer: nat -> Answer, headless: bool, k: nat, retry: int): Answer
  {
    answer(k + AttemptsFrom(answer, headless, k, retry) - 1)
  }

  /** Both a name and a prefix: the call raises and changes nothing, before any lookup. */
  lemma FindRejectsNameAndPrefix(answer: nat -> Answer, headless: bool, s: Session,
                                 strategy: string, value: string, name: string, prefix: string, retry: int)
    requires name != "" && prefix != ""
    ensures Find(answer, headless, s, strategy, value, name, prefix, retry) == (s, Raised(NameAndPrefix))
  {
  }

  /** A retry passes the effective name and the default prefix, so it never fails the name check. */
  lemma RetryPassesNameCheck(name: string, prefix: string, strategy: string, value: string)
    ensures var retryName := EffectiveName(name, prefix, strategy, value);
            retryName != "" && EffectiveName(retryName, "", strategy, value) == retryName
  {
  }

  /**
   * A call that passes the name check makes `AttemptsFrom` lookups, at
   * most 3 when `retry` starts at 0 or above, moves the clock on by their
   * total duration, and leaves `start_time` unset.
   */
  lemma FindLookups(answer: nat -> Answer, headless: bool, s: Session,
                    strategy: string, value: string, name: string, prefix: string, retry: int)
    requires Ready(s)
    requires !(name != "" && prefix != "")
    ensures var s' := Find(answer, headless, s, strategy, value, name, prefix, retry).0;
            var n := AttemptsFrom(answer, headless, s.lookups, retry);
            && s'.lookups == s.lookups + n
            && (retry >= 0 ==> s'.lookups <= s.lookups + 3)
            && s'.now == s.now + Took(answer, s.lookups, n)
            && s'.startTime.None?
  {
    FindIsClosed(answer, headless, s, strategy, value, name, prefix, retry);
    ConcludeReports(Settled(answer, headless, s, StartOf(s), retry), StartOf(s),
                    EffectiveName(name, prefix, strategy, value), LastAttempt(answer, headless, s.lookups, retry), headless);
  }

  /**
   * A call that passes the name check fires exactly one event, named as the
   * call is, of type "find" with response length 0, timed from the first
   * attempt's start to the last attempt's end; the only exception is a
   * final error without `args`, which fires none. The event is a success
   * exactly when the last attempt raised nothing.
   */
  lemma FindReportsOnce(answer: nat -> Answer, headless: bool, s: Session,
                        strategy: string, value: string, name: string, prefix: string, retry: int)
    requires Ready(s)
    requires !(name != "" && prefix != "")
    ensures var s' := Find(answer, headless, s, strategy, value, name, prefix, retry).0;
            var n := AttemptsFrom(answer, headless, s.lookups, retry);
            var err := AttemptError(LastAttempt(answer, headless, s.lookups, retry), headless);
            if err.Some? && |err.value.args| == 0 then s'.events == s.events
            else
              && |s'.events| == |s.events| + 1
              && s'.events[..|s.events|] == s.events
              && var ev := s'.events[|s.events|];
              && ev.requestType == "find"
              && ev.responseLength == 0
              && ev.name == EffectiveName(name, prefix, strategy, value)
              && ev.responseTime == s'.now - StartOf(s) >= 0
              && (s.startTime.None? ==> ev.responseTime == Took(answer, s.lookups, n))
              && (ev.RequestSuccess? <==> err.None?)
  {
    FindIsClosed(answer, headless, s, strategy, value, name, prefix, retry);
    ConcludeReports(Settled(answer, headless, s, StartOf(s), retry), StartOf(s),
                    EffectiveName(name, prefix, strategy, value), LastAttempt(answer, headless, s.lookups, retry), headless);
  }

  /**
   * The end of a call keeps the lookup count and the clock, unsets the
   * start, and fires one event timed from `t0`, a success exactly when the
   * last attempt raised nothing, unless that attempt's error has no `args`.
   */
  lemma ConcludeReports(s: Session, t0: int, name: string, a: Answer, headless: bool)
    ensures var s' := Conclude(s, t0, name, a, headless).0;
            var err := AttemptError(a, headless);
            && s'.lookups == s.lookups && s'.now == s.now && s'.startTime.None?
            && if err.Some? && |err.value.args| == 0 then s'.events == s.events
               else
                 && |s'.events| == |s.events| + 1
                 && s'.events[..|s.events|] == s.events
                 && var ev := s'.events[|s.events|];
                 && ev.requestType == "find"
                 && ev.responseLength == 0
                 && ev.name == name
                 && ev.responseTime == s.now - t0
                 && (ev.RequestSuccess? <==> err.None?)
  {
  }

  /**
   * When the last attempt raises nothing the call returns the element that
   * attempt found and writes no screenshot.
   */
  lemma FindSucceeds(answer: nat -> Answer, headless: bool, s: Session,
                     strategy: string, value: string, name: string, prefix: string, retry: int)
    requires Ready(s)
    requires !(name != "" && prefix != "")
    requires AttemptError(LastAttempt(answer, headless, s.lookups, retry), headless).None?
    ensures var res := Find(answer, headless, s, strategy, value, name, prefix, retry);
            var last := LastAttempt(answer, headless, s.lookups, retry);
            && last.find.Located?
            && res.1 == Returned(Some(last.find.element))
            && res.0.screenshots == s.screenshots
  {
    FindIsClosed(answer, headless, s, strategy, value, name, prefix, retry);
  }

  /**
   * A call ends in failure only once every one of its attempts has failed
   * and the retries are used up.
   */
  lemma FailureOnlyWhenExhausted(answer: nat -> Answer, headless: bool, k: nat, retry: int)
    requires AttemptError(LastAttempt(answer, headless, k, retry), headless).Some?
    ensures var n := AttemptsFrom(answer, headless, k, retry);
            && (forall j :: k <= j < k + n ==> AttemptError(answer(j), headless).Some?)
            && retry + n - 1 >= 2
  {
    AttemptsStopAtFirstSuccess(answer, headless, k, retry);
  }

  /**
   * After the last attempt failed, the call writes one screenshot, reports
   * the (possibly rewritten) message, and then swallows a
   * WebDriverException, returning whatever the last attempt had found, or
   * re-raises any other error; an error without `args` raises IndexError
   * before anything is written or reported.
   */
  lemma FindFails(answer: nat -> Answer, headless: bool, s: Session,
                  strategy: string, value: string, name: string, prefix: string, retry: int)
    requires Ready(s)
    requires !(name != "" && prefix != "")
    requires AttemptError(LastAttempt(answer, headless, s.lookups, retry), headless).Some?
    ensures var last := LastAttempt(answer, headless, s.lookups, retry);
            FailedAs(Find(answer, headless, s, strategy, value, name, prefix, retry), s, StartOf(s),
                     EffectiveName(name, prefix, strategy, value), last, AttemptError(last, headless).value)
  {
    var last := LastAttempt(answer, headless, s.lookups, retry);
    var e := AttemptError(last, headless).value;
    var dn := EffectiveName(name, prefix, strategy, value);
    var sEnd := Settled(answer, headless, s, StartOf(s), retry);
    assert Find(answer, headless, s, strategy, value, name, prefix, retry)
        == Failed(sEnd, StartOf(s), dn, last, e) by {
      FindIsClosed(answer, headless, s, strategy, value, name, prefix, retry);
    }
    FailedOutcome(sEnd, StartOf(s), dn, last, e);
  }

  /**
   * `res` is how a call that started from `s` at clock reading `t0` ends
   * when its last attempt `a` raised `e`.
   */
  predicate FailedAs(res: (Session, Return), s: Session, t0: int, name: string, a: Answer, e: Error)
  {
    var (s', r) := res;
    if |e.args| == 0 then
      s'.events == s.events && s'.screenshots == s.screenshots && r == Raised(NoArgs(e))
    else
      && s'.screenshots == s.screenshots + [ScreenshotFileName(a.timestamp, name, a.fiber)]
      && s'.events == s.events + [RequestFailure("find", name, s'.now - t0,
                                                 RewriteMessage(e.kind, e.args[0], a.implicitWait), 0)]
      && r == if IsWebDriverException(e.kind) then Returned(FoundElement(a)) else Raised(Reraise(e))
  }

  /** The failure handling does what `FailedAs` says. */
  lemma FailedOutcome(s: Session, t0: int, name: string, a: Answer, e: Error)
    ensures FailedAs(Failed(s, t0, name, a, e), s, t0, name, a, e)
  {
  }

  /** The message rewrite leaves a message without either marker as it is. */
  lemma RewriteKeepsUnmarkedMessage(kind: ErrorKind, message: string, implicitWait: WaitReply)
    requires forall i: nat :: !OccursAt(message, i, LocateMarker)
    requires forall i: nat :: !OccursAt(message, i, SessionMarker)
    ensures RewriteMessage(kind, message, implicitWait) == message
  {
    if kind == NoSuchElement && !implicitWait.Unreadable? {
      ReplaceAllAbsent(message, LocateMarker, "");
      if implicitWait.Seconds? {
        ReplaceAllAbsent(message, SessionMarker, WaitedText(implicitWait.text));
      }
    }
  }

  /**
   * A NoSuchElementException message made of some text `p`, the locate
   * marker, a locator `x`, the session marker and the session details `y`,
   * each marker occurring only there: once the wait call answers, the
   * rewrite drops the locate marker and, when the wait reads as seconds,
   * puts the wait in place of the session marker. When the division fails,
   * the first replacement stays and the second never happens.
   */
  lemma RewriteMarkedMessage(p: string, x: string, y: string, implicitWait: WaitReply)
    requires forall i: nat :: i != |p| ==> !OccursAt(p + LocateMarker + x + SessionMarker + y, i, LocateMarker)
    requires forall i: nat :: i != |p + x| ==> !OccursAt(p + x + SessionMarker + y, i, SessionMarker)
    ensures var r := RewriteMessage(NoSuchElement, p + LocateMarker + x + SessionMarker + y, implicitWait);
            match implicitWait
            case Unreadable => r == p + LocateMarker + x + SessionMarker + y
            case NotNumeric => r == p + x + SessionMarker + y
            case Seconds(w) => r == p + x + WaitedText(w) + y
  {
    var rest := x + SessionMarker + y;
    assert p + LocateMarker + x + SessionMarker + y == p + LocateMarker + rest;
    ReplaceAllOnce(p, LocateMarker, rest, "");
    assert p + "" + rest == (p + x) + SessionMarker + y;
    if implicitWait.Seconds? {
      ReplaceAllOnce(p + x, SessionMarker, y, WaitedText(implicitWait.text));
    }
  }
}
