/** Locations. URL parsing and serialisation are not modelled: a URL is only the two
    components the import map reads, and the URL constructor is a parameter. */
module Urls {
  import opened JsValues

  /** A parsed URL: its serialisation and its path component. */
  datatype Url = Url(href: string, pathname: string)

  /** `new URL(input, base)`: resolves `input` against `base`. The constructor first
      converts a non-string input to a string; that conversion is part of the parameter. */
  type Parser = (JsValue, Url) -> Url

  /** `s.startsWith(prefix)`. */
  predicate StartsWith(s: string, prefix: string) {
    prefix <= s
  }
}
