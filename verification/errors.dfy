/** The exceptions the modelled code raises or lets through. */
module Errors {

  datatype Error =
    /** `ValueError(message)`: invalid configuration (negative slowmo, unknown device). */
    | ValueError(message: string)
    /** `AttributeError`: the Playwright instance has no browser type of that name. */
    | AttributeError(name: string)
    /** `KeyError`: an options dictionary lacks a key that is indexed. */
    | KeyError(key: string)
    /** Any exception thrown by an opaque Playwright call (launch, connect,
        new_context, tracing.start, screenshot). */
    | PlaywrightError
}
