/** `PlaywrightBrowser`: the browser engines selectable with `--pw-browser`,
    including `RANDOM`, which is resolved to one of the others at launch. */
module Browsers {
  import opened Wrappers
  import opened Errors

  datatype PlaywrightBrowser = Firefox | Chromium | Webkit | Random

  /** The members other than `RANDOM`, in declaration order. */
  const Concrete: seq<PlaywrightBrowser> := [Firefox, Chromium, Webkit]

  function Value(b: PlaywrightBrowser): string {
    match b
    case Firefox => "firefox"
    case Chromium => "chromium"
    case Webkit => "webkit"
    case Random => "random"
  }

  /** `PlaywrightBrowser(s)`, the argparse conversion of `--pw-browser`. */
  function Parse(s: string): (r: Result<PlaywrightBrowser, Error>)
    ensures r.Success? ==> Value(r.value) == s
    ensures r.Failure? ==> r.error.ValueError? && forall b :: Value(b) != s
  {
    if s == "firefox" then Success(Firefox)
    else if s == "chromium" then Success(Chromium)
    else if s == "webkit" then Success(Webkit)
    else if s == "random" then Success(Random)
    else
      assert forall b :: Value(b) != s;
      Failure(ValueError("'" + s + "' is not a valid PlaywrightBrowser"))
  }

  /** Distinct members carry distinct values. */
  lemma ValueInjective(a: PlaywrightBrowser, b: PlaywrightBrowser)
    ensures Value(a) == Value(b) ==> a == b
  {
  }

  /** Parsing a member's value gives back that member. */
  lemma ValueRoundTrip(b: PlaywrightBrowser)
    ensures Parse(Value(b)) == Success(b)
  {
  }

  /** `Concrete` lists every member except `RANDOM`, once each. */
  lemma ConcreteIsAllButRandom()
    ensures forall b :: b in Concrete <==> b != Random
    ensures forall i, j :: 0 <= i < j < |Concrete| ==> Concrete[i] != Concrete[j]
  {
  }
}
