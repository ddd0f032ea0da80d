/**
 * The names `WebdriverClient.find_element` builds: the display name a
 * lookup is reported under, and the file name of the screenshot taken
 * after a lookup has failed for good.
 */
module Naming {
  import opened Text

  /** Width the prefix is left-justified to (`prefix.ljust(13)`). */
  const PrefixWidth: nat := 13
  /** How many characters of the locator strategy are kept (`by[0:5]`). */
  const StrategyChars: nat := 5

  /**
   * `f"{prefix.ljust(13)} {by[0:5]} {value}"`: it starts with the whole
   * prefix and ends with the whole value, and is at least 15 characters long.
   */
  function DisplayName(prefix: string, strategy: string, value: string): (r: string)
    ensures |r| == (if |prefix| < PrefixWidth then PrefixWidth else |prefix|) + 2
                   + (if |strategy| < StrategyChars then |strategy| else StrategyChars) + |value|
    ensures r[..|prefix|] == prefix
    ensures r[|r| - |value|..] == value
  {
    LeftJustify(prefix, PrefixWidth) + " " + Head(strategy, StrategyChars) + " " + value
  }

  /**
   * The layout of a display name, character by character: the prefix,
   * spaces up to column 13 (none when the prefix is longer; it is never cut),
   * one space, at most five characters of the strategy, one space, the value.
   */
  lemma DisplayNameLayout(prefix: string, strategy: string, value: string)
    ensures var w := if |prefix| < PrefixWidth then PrefixWidth else |prefix|;
            var b := if |strategy| < StrategyChars then |strategy| else StrategyChars;
            var r := DisplayName(prefix, strategy, value);
            && |r| == w + 1 + b + 1 + |value|
            && r[..|prefix|] == prefix
            && (forall i :: |prefix| <= i < w ==> r[i] == ' ')
            && r[w] == ' '
            && r[w + 1..w + 1 + b] == strategy[..b]
            && r[w + 1 + b] == ' '
            && r[w + 2 + b..] == value
  {
    var w := if |prefix| < PrefixWidth then PrefixWidth else |prefix|;
    var b := if |strategy| < StrategyChars then |strategy| else StrategyChars;
    var p := LeftJustify(prefix, PrefixWidth);
    var h := Head(strategy, StrategyChars);
    var r := DisplayName(prefix, strategy, value);
    assert r == p + [' '] + h + [' '] + value;
    assert r[..w] == p;
    assert r[..|prefix|] == p[..|prefix|];
    assert |p| == w && |h| == b;
    assert r[w + 1..w + 1 + b] == (p + [' '] + h)[w + 1..w + 1 + b];
    assert r[w + 2 + b..] == value;
  }

  /** The name a lookup is reported under: the given one, else the synthesised one. */
  function EffectiveName(name: string, prefix: string, strategy: string, value: string): (r: string)
    ensures name != "" ==> r == name
    ensures name == "" ==> r == DisplayName(prefix, strategy, value)
    ensures |r| >= if name == "" then PrefixWidth + 2 else 1
  {
    if name == "" then DisplayName(prefix, strategy, value) else name
  }

  /** The four characters the screenshot file name must not carry over from the display name. */
  predicate Reserved(c: char)
  {
    c == ' ' || c == '{' || c == '}' || c == ':'
  }

  /**
   * `name.replace(' ', '_').replace('{', '_').replace('}', '_').replace(':', '_')`:
   * every reserved character becomes `'_'`, every other one is kept.
   */
  function SanitizeName(name: string): (r: string)
    ensures |r| == |name|
    ensures forall i :: 0 <= i < |r| ==> r[i] == if Reserved(name[i]) then '_' else name[i]
    ensures forall i :: 0 <= i < |r| ==> !Reserved(r[i])
  {
    var a := ReplaceAll(name, " ", "_");
    var b := ReplaceAll(a, "{", "_");
    var c := ReplaceAll(b, "}", "_");
    ReplaceCharAt(name, ' ', '_');
    ReplaceCharAt(a, '{', '_');
    ReplaceCharAt(b, '}', '_');
    ReplaceCharAt(c, ':', '_');
    ReplaceAll(c, ":", "_")
  }

  /** Sanitising twice is sanitising once. */
  lemma SanitizeNameIdempotent(name: string)
    ensures SanitizeName(SanitizeName(name)) == SanitizeName(name)
  {
    var r := SanitizeName(name);
    assert forall i :: 0 <= i < |r| ==> SanitizeName(r)[i] == r[i];
  }

  /** `isoformat().replace(":", ".")`: the timestamp with every colon turned into a dot. */
  function TimeString(iso: string): (r: string)
    ensures |r| == |iso|
    ensures forall i :: 0 <= i < |r| ==> r[i] == if iso[i] == ':' then '.' else iso[i]
  {
    ReplaceCharAt(iso, ':', '.');
    ReplaceAll(iso, ":", ".")
  }

  /**
   * `f"{timestring}_{sanitised name}_{greenlet_id}.png"`: as long as its
   * parts, starting with the timestamp and ending in `.png`.
   */
  function ScreenshotFileName(iso: string, name: string, fiber: nat): (r: string)
    ensures |r| == |iso| + |name| + |NatToDecimal(fiber)| + 6
    ensures r[..|iso|] == TimeString(iso)
    ensures r[|r| - 4..] == ".png"
  {
    TimeString(iso) + "_" + SanitizeName(name) + "_" + NatToDecimal(fiber) + ".png"
  }

  /**
   * How a screenshot file name reads back: the timestamp without colons, an
   * underscore, the display name with no reserved character left, an
   * underscore, the decimal greenlet id and `.png`.
   */
  lemma ScreenshotFileNameLayout(iso: string, name: string, fiber: nat)
    ensures var f := ScreenshotFileName(iso, name, fiber);
            var t := |iso|;
            var n := t + 1 + |name|;
            && |f| == n + 1 + |NatToDecimal(fiber)| + 4
            && f[..t] == TimeString(iso)
            && (forall i :: 0 <= i < t ==> f[i] != ':')
            && f[t] == '_'
            && f[t + 1..n] == SanitizeName(name)
            && (forall i :: t + 1 <= i < n ==> !Reserved(f[i]))
            && f[n] == '_'
            && DecimalValue(f[n + 1..|f| - 4]) == fiber
            && f[|f| - 4..] == ".png"
  {
    var f := ScreenshotFileName(iso, name, fiber);
    var ts := TimeString(iso);
    var sn := SanitizeName(name);
    var d := NatToDecimal(fiber);
    var t := |iso|;
    var n := t + 1 + |name|;
    assert f == ts + ['_'] + sn + ['_'] + d + ".png";
    assert f[..t] == ts;
    assert f[t + 1..n] == sn;
    assert f[n + 1..|f| - 4] == d;
    DecimalRoundTrip(fiber);
    forall i | t + 1 <= i < n ensures !Reserved(f[i]) {
      assert f[i] == sn[i - (t + 1)];
    }
  }
}
