# Timed, retrying element lookup of the locust-plugins webdriver user

This project models the stateful core of `locust_plugins/users/webdriver.py`. That module lets a
Locust user drive a Chrome browser through Selenium and report each element lookup to Locust as a
request.

## `WebdriverClient.find_element`

The model covers:

- the check that refuses a `name` together with a `prefix`;
- the display name built from `prefix`, the locator strategy `by` and `value`;
- the `start_time` field, recorded on the first attempt and kept across retries;
- the retry recursion while `retry < 2`;
- the single success or failure event the call fires;
- the screenshot file name written after the last failure;
- the choice between swallowing the error and re-raising it.

## The `_first_instance` guard

The model also covers the class-level `_first_instance` flag of `WebdriverUser`. It makes the
first user constructed in a process issue the stale-browser cleanup, and no later user.

## How the outside world is modelled

Everything outside the module is a parameter `answer: nat -> Answer`. The session's `k`-th lookup
receives `answer(k)`, which carries:

- what `super().find_element` returns or raises;
- what the scroll and highlight scripts raise;
- how many clock ticks the attempt takes;
- what reading the implicit wait back after a `NoSuchElementException` gives: an error, a value
  that cannot be divided by 1000, or the seconds as text;
- the ISO timestamp;
- the greenlet id.

Fired events and screenshot file names are appended to sequences in the client's state.

## Modules

- `Text` holds the Python string operations the module uses, proved against their meaning:
  - `str.ljust`;
  - slicing;
  - `str.replace`;
  - integer to decimal text.
- `Naming` holds the display name and the screenshot file name.
- `Lookup` holds the lookup as a function of the client's state (`Session`) and the oracle:
  - `Find` follows the source's recursion.
  - `FindClosed` states the same call without recursion, through the number of lookups
    (`AttemptsFrom`) and their total duration (`Took`).
  - `FindIsClosed` proves the two equal.
  - The property lemmas are stated about `Find`.
- `Webdriver` holds the classes:
  - `WebdriverClient` has the `start_time` field, the clock, the lookup count, the event log and
    the screenshot log as fields. Its recursive `FindElement` method is proved to leave exactly
    the state and return exactly the value `Lookup.Find` gives.
  - `UserClass` holds the class-level flag and the cleanup requests issued.
  - The `WebdriverUser` constructor applies the guard.

## Behaviour of the code worth noting

- `prefix.ljust(13)` pads on the right and never truncates. `DisplayName("checkout", "id",
  "submit-btn")` is `"checkout      id submit-btn"`, with five spaces of padding and then one
  separating space.
- The last attempt can find the element and then fail in the scroll or highlight script with a
  `WebDriverException`. The call then fires the failure event and returns that element.
  `element` was already assigned before the exception.
- `e.args[0]` raises `IndexError` on an exception without args. This happens after `start_time`
  is cleared, but before any screenshot or event. The model has this as `Raised(NoArgs(e))`.
- The message rewrite can stop halfway. The first `replace` is assigned before
  `implicit_wait_time/1000` is evaluated. If that division raises, the bare `except` keeps a
  message with the locate marker removed and the session marker still in place.
- "At most 3 lookups" holds for `retry >= 0`. A negative `retry` allows more.

## Model

| member | source | states |
|---|---|---|
| Lookup.Find | locust_plugins/users/webdriver.py:38-93 | `find_element` raises the usage error exactly when both a name and a prefix are given, never from a retry or from the outcome. Any call that passes that check ends with `start_time` unset. |
| Lookup.FindIsClosed | locust_plugins/users/webdriver.py:38-93 | The recursive lookup equals its closed form: `AttemptsFrom` lookups, the clock moved on by their total, and the outcome decided by the last one. |
| Lookup.AttemptsStopAtFirstSuccess | locust_plugins/users/webdriver.py:56-58 | Every lookup of a call except the last one fails. The last one either succeeds or is made with `retry` at 2 or above. |
| Lookup.FindRejectsNameAndPrefix | locust_plugins/users/webdriver.py:40-41 | A `name` together with a `prefix` raises, and the state (start time, lookups, events, screenshots) stays unchanged. |
| Lookup.RetryPassesNameCheck | locust_plugins/users/webdriver.py:42-58 | A retry passes the effective name and an empty prefix, so it never fails the name check. It is reported under the same name. |
| Lookup.FindLookups | locust_plugins/users/webdriver.py:44-89 | A call makes `AttemptsFrom` lookups, at most 3 when `retry >= 0`. The clock advances by their total duration, and `start_time` is unset afterwards. |
| Lookup.FindReportsOnce | locust_plugins/users/webdriver.py:44-92 | A call fires exactly one event: type "find", length 0, reported under the effective name, timed from the first attempt's start to the end. The event is a success iff the last attempt raised nothing. The only exception is an error without args, which fires none. |
| Lookup.ConcludeReports | locust_plugins/users/webdriver.py:59-92 | The end of a call (`Conclude`) keeps the clock and the lookup count and unsets the start. It fires one event timed from the recorded start, a success iff the attempt raised nothing. The exception is an error without args, which fires none. |
| Lookup.Succeeded | locust_plugins/users/webdriver.py:87-93 | The `else` block changes only the start (unset) and the events (one success event of type "find", length 0, timed from the recorded start), and returns the element found. |
| Lookup.Failed | locust_plugins/users/webdriver.py:59-86 | The `except` block unsets the start and keeps the clock and the lookup count. An error without args writes and fires nothing and raises `IndexError`. Otherwise it adds one screenshot and one failure event with the rewritten message. It returns what the attempt found exactly when the error is a WebDriverException, and re-raises it otherwise. |
| Lookup.FindSucceeds | locust_plugins/users/webdriver.py:87-93 | When the last attempt raised nothing, the call returns the element it found and writes no screenshot. |
| Lookup.FailureOnlyWhenExhausted | locust_plugins/users/webdriver.py:56-59 | A failing call has seen every one of its attempts fail, and its retries are used up. |
| Lookup.FindFails | locust_plugins/users/webdriver.py:59-93 | After the last failure, the call writes one screenshot and fires the failure event with the rewritten message. It then returns the found element (or `None`) for a WebDriverException, and re-raises anything else. An error without args raises before writing or firing anything. |
| Lookup.RewriteKeepsUnmarkedMessage | locust_plugins/users/webdriver.py:62-72 | The message rewrite changes nothing in a message that has neither marker. |
| Lookup.RewriteMessage | locust_plugins/users/webdriver.py:62-72 | The message of any error other than a NoSuchElementException is reported as it is. So is the message when the implicit-wait call fails. |
| Lookup.RewriteMarkedMessage | locust_plugins/users/webdriver.py:62-72 | Take a message made of any text, the locate marker, the locator, the session marker and the session details, with each marker occurring only there. Once the wait call answers, the locate marker is dropped. The session marker becomes " (waited <seconds>s, " when the division succeeds, and stays when it raises. The message is unchanged when the call itself fails. |
| Text.ReplaceAllOnce | locust_plugins/users/webdriver.py:67-70 | `str.replace` on a string in which the pattern occurs exactly once replaces that occurrence and keeps everything else. |
| Lookup.AttemptError | locust_plugins/users/webdriver.py:46-56 | The attempt raises nothing exactly when the lookup found an element, the scroll script succeeded and, unless headless, the highlight succeeded. Otherwise it raises the first of these to fail, in that order. Headless mode never runs the highlight. |
| Naming.DisplayName | locust_plugins/users/webdriver.py:43 | The synthesised name starts with the whole prefix and ends with the whole value. Its length is the padded prefix width, two separators, at most five characters of `by`, and the value. |
| Naming.DisplayNameLayout | locust_plugins/users/webdriver.py:43 | The synthesised name is laid out as: the prefix, space padding up to column 13 (never truncated), a space, at most five characters of `by`, a space, the value. |
| Naming.EffectiveName | locust_plugins/users/webdriver.py:42-43 | A given name is used as it is. Otherwise the synthesised name is used, which is at least 15 characters long. |
| Naming.SanitizeName | locust_plugins/users/webdriver.py:76 | Each of `' '`, `'{'`, `'}'`, `':'` becomes `'_'`, every other character is kept, and none of the four remains. |
| Naming.SanitizeNameIdempotent | locust_plugins/users/webdriver.py:76 | Sanitising a sanitised name changes nothing. |
| Naming.TimeString | locust_plugins/users/webdriver.py:73 | Every `':'` of the timestamp becomes `'.'`, and every other character is kept. |
| Naming.ScreenshotFileName | locust_plugins/users/webdriver.py:73-77 | The file name is as long as its parts, starts with the dotted timestamp and ends in `.png`. |
| Naming.ScreenshotFileNameLayout | locust_plugins/users/webdriver.py:73-77 | The file name is the timestamp with every colon turned into a dot, `_`, the sanitised name with no reserved character left, `_`, the greenlet id in decimal (which reads back as the id), and `.png`. |
| Text.LeftJustify | locust_plugins/users/webdriver.py:43 | `str.ljust`: the string, then spaces up to the width, and never shorter than the string. |
| Text.Head | locust_plugins/users/webdriver.py:43 | Slicing `[0:n]`: the longest prefix of at most `n` characters. |
| Text.Spaces | locust_plugins/users/webdriver.py:43 | `n` space characters. |
| Text.ReplaceAll | locust_plugins/users/webdriver.py:67-76 | `str.replace`, leftmost and non-overlapping: a replacement as long as the pattern keeps the length, and replacing a pattern by itself changes nothing. |
| Text.ReplaceAllAbsent | locust_plugins/users/webdriver.py:67-70 | `str.replace` leaves a string without the pattern unchanged. |
| Text.ReplaceCharAt | locust_plugins/users/webdriver.py:73-76 | `str.replace` of one character by another maps each occurrence and keeps the length. |
| Text.NatToDecimal | locust_plugins/users/webdriver.py:74-76 | The decimal text of the greenlet id is non-empty and all digits, with no leading zero. It is `"0"` exactly for 0. |
| Text.DecimalRoundTrip | locust_plugins/users/webdriver.py:74-76 | The decimal text of a number reads back as that number. |
| Webdriver.WebdriverClient.FindElement | locust_plugins/users/webdriver.py:38-93 | The method leaves exactly the state and returns exactly the result `Lookup.Find` gives. It keeps the clock valid. It changes nothing on a name/prefix clash, and otherwise ends with `start_time` unset. |
| Webdriver.WebdriverClient.Conclude | locust_plugins/users/webdriver.py:59-93 | The `else` block, or the `except` block once retries are used up, ends the call exactly as `Lookup.Conclude` says. |
| Webdriver.WebdriverClient.Attempt | locust_plugins/users/webdriver.py:46-56 | One `try` block takes the next answer, advances the clock by its duration, and yields the element found and the error raised. |
| Webdriver.WebdriverClient.constructor | locust_plugins/users/webdriver.py:15-24 | A new client has no start time, no lookups, no events and no screenshots. |
| Webdriver.UserClass.constructor | locust_plugins/users/webdriver.py:99 | The flag starts raised and nothing has been issued. |
| Webdriver.WebdriverUser.constructor | locust_plugins/users/webdriver.py:101-109 | The cleanup is issued only when the flag was raised, and the flag is lowered. The class invariant (issued is empty while the flag is raised, and exactly the two cleanup commands once it is lowered) is kept, so the cleanup happens at most once per process. Each user gets a fresh client. |

## Left out

- Session setup is not modelled: Chrome options, the remote connection, the `SEND_COMMAND`
  registration and network emulation (locust_plugins/users/webdriver.py:15-32). These are
  Selenium plumbing and network I/O. The client constructor only sets the state the lookup uses.
- `clear()` is not modelled. It only forwards two vendor commands.
- The scroll and highlight scripts and the sleeps are modelled only as possible failures inside
  the attempt. The sleeps count only through the ticks in each `Answer`.
- Time is in integer ticks. `time.monotonic()` is a float, and the `* 1000` scaling is not
  modelled.
- The implicit wait is an oracle `WaitReply`. How `implicit_wait_time/1000` formats as a float
  is not modelled: the seconds arrive as text.
- The message rewrite's bare `except: pass` is modelled by its three outcomes. A failed
  `GET_TIMEOUTS` call or reply lookup leaves the message unchanged. A failed division leaves it
  half rewritten. Otherwise both replacements happen. A `replace` that fails on a non-string
  message is not modelled: messages are text.
- `datetime.now().isoformat()` and the greenlet id are oracle values.
- `save_screenshot` writing the file, and failures of that write or of `fire`, are not modelled.
  Only the file name is kept.
- Locust's event pipeline is an append to the client's event log.
- `subprocess.Popen` process control is modelled as the list of commands issued.
- `on_stop` and `client.close()` are not modelled. They are remote I/O.
- An empty `name` stands for both `None` and `""`, which the source treats alike.
- `value=None` rendering as `"None"` in the display name is not modelled. The value is text.
- A `BaseException` that is not an `Exception` (such as a gevent timeout) escapes the `try`
  uncaught and leaves `start_time` set. It is not modelled.
