/**
 * Go's normalizeURL (go_solution/main.go:84-100). The parts of net/url it
 * calls (url.Parse, URL.IsAbs, URL.ResolveReference followed by String)
 * are not modelled: the caller supplies them as a UrlLib over its own
 * parsed-URL type U.
 */
module Urls {
  import opened Wrappers
  import opened Strings

  /** The net/url operations normalizeURL relies on; None from `parse` is a parse error. */
  datatype UrlLib<!U> = UrlLib(
    parse: string -> Option<U>,
    isAbs: U -> bool,
    resolve: (U, U) -> string)   // resolve(base, ref) == base.ResolveReference(ref).String()

  /** Which url.Parse call failed. */
  datatype UrlError = BadReference(rel: string) | BadBase(base: string)

  /** The scheme written in front of a scheme-relative reference. */
  const DefaultScheme: string := "https:"

  /**
   * The three rules, in order: a scheme-relative `//...` reference gets
   * "https:" in front without being parsed; a reference that parses as an
   * absolute URL is returned verbatim; anything else is resolved against
   * the base. Only a failure to parse the reference, or the base on the
   * third rule, is an error.
   */
  function Normalize<U>(lib: UrlLib<U>, base: string, rel: string): (r: Result<string, UrlError>)
    ensures HasPrefix(rel, "//") ==> r == Ok(DefaultScheme + rel)
    ensures !HasPrefix(rel, "//") && lib.parse(rel).Some? && lib.isAbs(lib.parse(rel).value) ==> r == Ok(rel)
    ensures r.Err? <==>
      && !HasPrefix(rel, "//")
      && (lib.parse(rel).None? || (!lib.isAbs(lib.parse(rel).value) && lib.parse(base).None?))
    ensures r.Err? ==> r.error == if lib.parse(rel).None? then BadReference(rel) else BadBase(base)
    ensures r.Ok? && !HasPrefix(rel, "//") && !lib.isAbs(lib.parse(rel).value) ==>
      lib.parse(base).Some? && r.value == lib.resolve(lib.parse(base).value, lib.parse(rel).value)
  {
    if HasPrefix(rel, "//") then Ok(DefaultScheme + rel)
    else match lib.parse(rel)
      case None => Err(BadReference(rel))
      case Some(u) =>
        if lib.isAbs(u) then Ok(rel)
        else match lib.parse(base)
          case None => Err(BadBase(base))
          case Some(b) => Ok(lib.resolve(b, u))
  }

  /** The first two rules never look at the base: such references normalise the same against any base. */
  lemma NormalizeIgnoresBase<U>(lib: UrlLib<U>, base1: string, base2: string, rel: string)
    requires HasPrefix(rel, "//") || (lib.parse(rel).Some? && lib.isAbs(lib.parse(rel).value))
    ensures Normalize(lib, base1, rel) == Normalize(lib, base2, rel)
    ensures Normalize(lib, base1, rel).Ok?
  {
  }
}
