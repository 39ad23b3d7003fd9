/** Reading the bearer credential out of an `Authorization` header. Signing and
    verifying tokens belong to the JSON Web Token library and are not part of this
    module: `Guards.Authenticate` receives verification as a parameter. */
module Jwt {
  import opened Outcomes
  import opened JsText

  const Scheme: string := "Bearer"

  /** `extractToken(authHeader)`: `None` stands for `null`. */
  function ExtractToken(header: Option<string>): (r: Option<string>)
    ensures header.None? || header == Some("") ==> r.None?
    ensures r.Some? ==> ' ' !in r.value
  {
    if header.None? || header.value == "" then None
    else
      var parts := Split(header.value, ' ');
      if |parts| != 2 || parts[0] != Scheme then None else Some(parts[1])
  }

  /** A token is extracted exactly from a header that is the scheme, one space and a
      space-free token; the scheme is compared case-sensitively. */
  lemma ExtractTokenExactly(header: Option<string>, t: string)
    ensures ExtractToken(header) == Some(t) <==> header == Some(Scheme + " " + t) && ' ' !in t
  {
    assert Scheme + " " + t == Scheme + [' '] + t;
    if header.Some? {
      SplitInTwo(header.value, ' ', Scheme, t);
    }
  }

  /** Round trip: building the header from a space-free token and extracting gives the token back. */
  lemma ExtractTokenRoundTrip(t: string)
    requires ' ' !in t
    ensures ExtractToken(Some(Scheme + " " + t)) == Some(t)
  {
    ExtractTokenExactly(Some(Scheme + " " + t), t);
  }

  /** A header with two or more spaces yields no token. */
  lemma ExtraSpacesYieldNothing(h: string, i: nat, j: nat)
    requires i < j < |h| && h[i] == ' ' && h[j] == ' '
    ensures ExtractToken(Some(h)) == None
  {
    if ExtractToken(Some(h)).Some? {
      var t := ExtractToken(Some(h)).value;
      ExtractTokenExactly(Some(h), t);
    }
  }
}
