/**
 * The two classes of the module as objects with state: `WebdriverClient`,
 * whose `find_element` keeps its start time in a field across retries and
 * fires its events on the environment, and `WebdriverUser`, whose
 * constructor issues the stale-process cleanup only for the first instance
 * in the process.
 */
module Webdriver {
  import opened Wrappers
  import opened Naming
  import opened Lookup

  /**
   * A browser session with timed, retrying lookups. The outside world is
   * `answer`: the session's reply to its `k`-th lookup is `answer(k)`.
   * `now` is the monotonic clock, `events` what has been fired on
   * `environment.events`, `screenshots` the files passed to `save_screenshot`.
   */
  class WebdriverClient {
    const headless: bool
    const answer: nat -> Answer
    var startTime: Option<int>
    var now: int
    var lookups: nat
    var events: seq<Event>
    var screenshots: seq<string>

    /** The client's state as the lookup specification sees it. */
    function State(): Session
      reads this
    {
      Session(startTime, now, lookups, events, screenshots)
    }

    ghost predicate Valid()
      reads this
    {
      Ready(State())
    }

    /** A new session: no start time recorded, nothing looked up, fired or written. */
    constructor (headless: bool, answer: nat -> Answer, clock: int)
      requires clock > 0
      ensures Valid()
      ensures this.headless == headless && this.answer == answer
      ensures State() == Session(None, clock, 0, [], [])
    {
      this.headless := headless;
      this.answer := answer;
      startTime := None;
      now := clock;
      lookups := 0;
      events := [];
      screenshots := [];
    }

    /**
     * The body of the `try`: `super().find_element`, then the scrollIntoView
     * script and, unless headless, the border scripts and sleeps. Returns the
     * element the lookup found, if any, the exception that left the block,
     * if any, and the world's answer for what follows.
     */
    method Attempt() returns (element: Option<Element>, error: Option<Error>, a: Answer)
      modifies this`now, this`lookups
      ensures a == answer(old(lookups))
      ensures element == FoundElement(a) && error == AttemptError(a, headless)
      ensures lookups == old(lookups) + 1 && now == old(now) + a.took
    {
      a := answer(lookups);
      lookups := lookups + 1;
      now := now + a.took;
      match a.find
      case NotLocated(e) =>
        element, error := None, Some(e);
      case Located(found) =>
        element := Some(found);
        if a.scroll.Some? {
          error := a.scroll;
        } else if !headless {
          error := a.highlight;
        } else {
          error := None;
        }
    }

    /**
     * `find_element(by=strategy, value=value, name=name, prefix=prefix, retry=retry)`,
     * an empty `name` standing for `None`.
     */
    method FindElement(strategy: string, value: string, name: string, prefix: string, retry: int)
      returns (r: Return)
      requires Valid()
      modifies this
      ensures Valid()
      ensures (State(), r) == Find(answer, headless, old(State()), strategy, value, name, prefix, retry)
      ensures name != "" && prefix != "" ==> State() == old(State())
      ensures !(name != "" && prefix != "") ==> startTime.None?
      decreases RetriesLeft(retry)
    {
      if name != "" && prefix != "" {
        return Raised(NameAndPrefix);
      }
      ghost var s0, name0 := State(), name;
      var name := name;
      if name == "" {
        name := DisplayName(prefix, strategy, value);
      }
      if Unset(startTime) {
        startTime := Some(now);
      }
      assert name == EffectiveName(name0, prefix, strategy, value);
      var element, error, a := Attempt();
      assert State() == AfterAttempt(answer, s0) && startTime == Some(StartOf(s0));
      if error.Some? && retry < 2 {
        FindRetries(answer, headless, s0, strategy, value, name0, prefix, retry);
        r := FindElement(strategy, value, name, "", retry + 1);
      } else {
        FindStops(answer, headless, s0, strategy, value, name0, prefix, retry);
        r := Conclude(name, a, element, error);
      }
    }

    /**
     * The `else:` block after a successful attempt, or the `except` block
     * once the retries are used up: `a` is the last attempt's answer, and
     * `element` and `error` are what its `try` block left.
     */
    method Conclude(name: string, a: Answer, element: Option<Element>, error: Option<Error>) returns (r: Return)
      requires startTime.Some?
      requires element == FoundElement(a) && error == AttemptError(a, headless)
      modifies this
      ensures (State(), r) == Lookup.Conclude(old(State()), old(startTime.value), name, a, headless)
    {
      var totalTime := now - startTime.value;
      startTime := None;
      match error
      case None =>
        events := events + [RequestSuccess("find", name, totalTime, 0)];
        r := Returned(element);
      case Some(e) =>
        if |e.args| == 0 {
          return Raised(NoArgs(e));
        }
        var message := RewriteMessage(e.kind, e.args[0], a.implicitWait);
        screenshots := screenshots + [ScreenshotFileName(a.timestamp, name, a.fiber)];
        events := events + [RequestFailure("find", name, totalTime, message, 0)];
        if !IsWebDriverException(e.kind) {
          return Raised(Reraise(e));
        }
        r := Returned(element);
    }
  }

  /** A process-termination request, started with `subprocess.Popen` and not waited for. */
  datatype Command = Command(argv: seq<string>)

  /** The two requests that kill browser drivers and test browsers left from earlier runs. */
  function CleanupCommands(): seq<Command>
  {
    [Command(["killall", "chromedriver"]), Command(["pkill", "-f", " --test-type=webdriver"])]
  }

  /**
   * The class-level state of `WebdriverUser`, shared by every instance in
   * the process: the `_first_instance` flag and the cleanup requests issued.
   */
  class UserClass {
    var firstInstance: bool
    var issued: seq<Command>

    /** The cleanup has been issued exactly when the flag is down, and then only once. */
    ghost predicate Valid()
      reads this
    {
      issued == if firstInstance then [] else CleanupCommands()
    }

    /** The class as the process loads it. */
    constructor ()
      ensures Valid() && firstInstance && issued == []
    {
      firstInstance := true;
      issued := [];
    }
  }

  /** A simulated user driving its own browser session. */
  class WebdriverUser {
    const client: WebdriverClient

    /**
     * `WebdriverUser(parent, headless)`: the first instance in the process
     * lowers the flag and then issues the cleanup; every instance opens its
     * own session.
     */
    constructor (cls: UserClass, headless: bool, answer: nat -> Answer, clock: int)
      requires cls.Valid()
      requires clock > 0
      modifies cls
      ensures cls.Valid() && !cls.firstInstance
      ensures cls.issued == if old(cls.firstInstance) then old(cls.issued) + CleanupCommands() else old(cls.issued)
      ensures fresh(client) && client.Valid() && client.headless == headless
      ensures client.State() == Session(None, clock, 0, [], [])
    {
      if cls.firstInstance {
        cls.firstInstance := false;
        cls.issued := cls.issued + CleanupCommands();
      }
      client := new WebdriverClient(headless, answer, clock);
    }
  }
}
