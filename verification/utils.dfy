/** Resolution of browser and device names against a Playwright instance
    (`get_browser_type`, `get_device_options`). */
module Utils {
  import opened Wrappers
  import opened Errors
  import Values
  import opened Playwright
  import opened Browsers

  /** A browser name as callers pass it: an enumeration member or a string. */
  datatype BrowserName = Member(browser: PlaywrightBrowser) | Named(name: string)

  /** Python truthiness of a browser name: members are always true, strings
      when non-empty. */
  predicate Truthy(n: BrowserName) {
    n.Member? || n.name != ""
  }

  /** An enumeration member is replaced by its value string. */
  function Normalise(n: BrowserName): (s: string)
    ensures n.Member? ==> s == Value(n.browser)
    ensures n.Named? ==> s == n.name
  {
    match n
    case Member(b) => Value(b)
    case Named(s) => s
  }

  /** The value strings `RANDOM` may resolve to. */
  const ConcreteValues: set<string> := {"firefox", "chromium", "webkit"}

  /** `get_browser_type`: the attribute of the Playwright instance named by the
      browser; `random` draws one of the other browsers, the draw being the
      `pick` argument. A missing attribute raises `AttributeError`. */
  function GetBrowserType(api: Api, n: BrowserName, pick: nat): (r: Result<string, Error>)
    ensures r.Success? ==> r.value in api.browserTypes
    ensures Normalise(n) != Value(Random) ==>
      && (r.Success? <==> Normalise(n) in api.browserTypes)
      && (r.Success? ==> r.value == Normalise(n))
      && (r.Failure? ==> r.error == AttributeError(Normalise(n)))
    ensures Normalise(n) == Value(Random) ==>
      && (r.Success? ==> r.value in ConcreteValues)
      && (r.Failure? ==> r.error.AttributeError? && r.error.name in ConcreteValues)
  {
    var key := Normalise(n);
    var resolved := if key == Value(Random) then Value(Concrete[pick % |Concrete|]) else key;
    if resolved in api.browserTypes then Success(resolved) else Failure(AttributeError(resolved))
  }

  /** Every non-random browser is a possible outcome of `random`. */
  lemma RandomReachesEveryBrowser(api: Api, b: PlaywrightBrowser)
    requires b != Random && Value(b) in api.browserTypes
    ensures exists pick: nat :: GetBrowserType(api, Member(Random), pick) == Success(Value(b))
  {
    var pick: nat := match b
      case Firefox => 0
      case Chromium => 1
      case Webkit => 2;
    assert Concrete[pick % |Concrete|] == b;
    assert GetBrowserType(api, Member(Random), pick) == Success(Value(b));
  }

  predicate Contains(s: string, part: string) {
    exists i :: 0 <= i <= |s| && part <= s[i..]
  }

  const DevicesUrl := "https://github.com/microsoft/playwright/blob/main/packages/playwright-core/src/server/deviceDescriptorsSource.json"

  function UnsupportedDeviceMessage(name: string): (m: string)
    ensures Contains(m, name)
  {
    var m := "Device '" + name + "' is not supported or does not exist. "
             + "Please refer to the list of supported devices here: " + DevicesUrl;
    assert name <= m[8..];
    m
  }

  /** `get_device_options`: no device means no options; a registered device
      gives its registry entry; any other name raises `ValueError` naming it. */
  function GetDeviceOptions(api: Api, name: Option<string>): (r: Result<Option<Values.Options>, Error>)
    ensures name.None? ==> r == Success(None)
    ensures name.Some? && name.value in api.devices ==> r == Success(Some(api.devices[name.value]))
    ensures name.Some? && name.value !in api.devices ==>
      r.Failure? && r.error.ValueError? && Contains(r.error.message, name.value)
  {
    match name
    case None => Success(None)
    case Some(d) =>
      if d in api.devices then Success(Some(api.devices[d]))
      else Failure(ValueError(UnsupportedDeviceMessage(d)))
  }
}
