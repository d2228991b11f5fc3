/** The parts of the Playwright library the modelled code reads. Browsers,
    contexts and pages are opaque handles; every call on them is foreign I/O. */
module Playwright {
  import opened Values

  /** Identity of a browser context (contexts are compared by identity). */
  type ContextId = nat

  /** Identity of a page. */
  type PageId = nat

  /** A Playwright instance as far as the factories use it: the attribute
      names that hold a browser type (`playwright.chromium`, ...) and the
      device descriptor registry (`playwright.devices`). */
  datatype Api = Api(browserTypes: set<string>, devices: map<string, Options>)

  /** Which opaque call, if any, throws during one factory invocation. */
  datatype Throwing = NoThrow | LaunchThrows | NewContextThrows | TracingStartThrows
}
