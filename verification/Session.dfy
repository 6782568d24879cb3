/** src/handler/auth.rs `extract_bearer_token` and src/views/auth.rs `session_cookie`. */
module Session {
  import opened Wrappers
  import opened Text

  /** A header that `to_str` reads, or bytes that it refuses. */
  datatype HeaderValue = Readable(text: string) | Unreadable

  datatype Headers = Headers(authorization: Option<HeaderValue>, cookie: Option<HeaderValue>)

  const BEARER := "Bearer "
  const COOKIE_NAME := "jwt_token="

  function SessionCookie(token: string, secure: bool): string {
    COOKIE_NAME + token + "; Path=/; HttpOnly" + (if secure then "; Secure" else "") + "; SameSite=Lax; Max-Age=3600"
  }

  predicate HasBearer(h: Headers) {
    && h.authorization.Some? && h.authorization.value.Readable?
    && BEARER <= h.authorization.value.text && |h.authorization.value.text| > 7
  }

  /** The token inside one piece of a cookie header, when that piece is a non-empty `jwt_token`. */
  function JwtValue(piece: string): Option<string> {
    var cookie := Trim(piece);
    if COOKIE_NAME <= cookie && |cookie| > |COOKIE_NAME| then Some(cookie[|COOKIE_NAME|..]) else None
  }

  method ExtractBearerToken(h: Headers) returns (token: Option<string>)
    ensures HasBearer(h) ==> token == Some(h.authorization.value.text[7..])
    ensures !HasBearer(h) && h.cookie.Some? && h.cookie.value.Readable? ==>
              IsFirstValue(Split(h.cookie.value.text, ';'), token)
    ensures !HasBearer(h) && !(h.cookie.Some? && h.cookie.value.Readable?) ==> token == None
  {
    if HasBearer(h) {
      return Some(h.authorization.value.text[7..]);
    }
    if h.cookie.Some? && h.cookie.value.Readable? {
      var pieces := Split(h.cookie.value.text, ';');
      for i := 0 to |pieces|
        invariant forall j | 0 <= j < i :: JwtValue(pieces[j]) == None
      {
        var cookie := Trim(pieces[i]);
        if COOKIE_NAME <= cookie {
          var value := cookie[|COOKIE_NAME|..];
          if value != [] {
            return Some(value);
          }
        }
      }
    }
    return None;
  }

  /** `found` is the first non-empty `jwt_token` among the pieces, if there is one. */
  ghost predicate IsFirstValue(pieces: seq<string>, found: Option<string>) {
    match found
    case None => forall j | 0 <= j < |pieces| :: JwtValue(pieces[j]) == None
    case Some(v) =>
      exists i | 0 <= i < |pieces| ::
        JwtValue(pieces[i]) == found && forall j | 0 <= j < i :: JwtValue(pieces[j]) == None
  }

  lemma FirstValueUnique(pieces: seq<string>, a: Option<string>, b: Option<string>)
    requires IsFirstValue(pieces, a) && IsFirstValue(pieces, b)
    ensures a == b
  {}

  predicate Blank(s: string) { forall i | 0 <= i < |s| :: IsWhitespace(s[i]) }

  lemma {:induction false} TrimStartPadding(pad: string, s: string)
    requires Blank(pad)
    ensures TrimStart(pad + s) == TrimStart(s)
  {
    if pad == [] {
      assert pad + s == s;
    } else {
      TrimStartPadding(pad[1..], s);
      assert (pad + s)[1..] == pad[1..] + s;
    }
  }

  lemma {:induction false} TrimEndPadding(s: string, pad: string)
    requires Blank(pad)
    ensures TrimEnd(s + pad) == TrimEnd(s)
  {
    if pad == [] {
      assert s + pad == s;
    } else {
      TrimEndPadding(s, pad[..|pad| - 1]);
      assert (s + pad)[..|s + pad| - 1] == s + pad[..|pad| - 1];
    }
  }

  lemma TrimPadding(left: string, s: string, right: string)
    requires Blank(left) && Blank(right)
    requires IsTrimmed(s) && s != []
    ensures Trim(left + s + right) == s
  {
    assert left + s + right == left + (s + right);
    TrimStartPadding(left, s + right);
    assert (s + right)[0] == s[0];
    TrimEndPadding(s, right);
  }

  /** What a browser keeps of the printed cookie is the text before the first `;`. */
  lemma PrintedPair(token: string, secure: bool)
    requires ';' !in token
    ensures Split(SessionCookie(token, secure), ';')[0] == COOKIE_NAME + token
  {
    var s := SessionCookie(token, secure);
    var pair := COOKIE_NAME + token;
    assert s[..|pair|] == pair && s[|pair|] == ';';
    assert ';' !in pair;
    assert forall k | 0 <= k < |pair| :: s[k] == pair[k];
    assert IndexOf(s, ';') == |pair|;
  }

  lemma PaddedPair(token: string, left: string, right: string)
    requires token != [] && ';' !in token && !IsWhitespace(token[|token| - 1]) && Blank(left) && Blank(right)
    ensures var piece := left + (COOKIE_NAME + token) + right; JwtValue(piece) == Some(token) && ';' !in piece
  {
    var pair := COOKIE_NAME + token;
    assert pair[0] == 'j' && pair[|pair| - 1] == token[|token| - 1];
    TrimPadding(left, pair, right);
    assert pair[|COOKIE_NAME|..] == token;
    BlankHasNoSemicolon(left);
    BlankHasNoSemicolon(right);
    hide Trim, Blank, IsWhitespace;
  }

  lemma BlankHasNoSemicolon(s: string)
    requires Blank(s)
    ensures ';' !in s
  {}

  /** The printed pair, sent back anywhere in a cookie header, is the token that is extracted:
      no `Authorization` header may win over it and no earlier cookie may carry a token of its own. */
  lemma CookieRoundTrip(h: Headers, token: string, secure: bool, before: seq<string>, left: string, right: string,
                        after: seq<string>, found: Option<string>)
    requires token != [] && ';' !in token && !IsWhitespace(token[|token| - 1])
    requires Blank(left) && Blank(right)
    requires forall p :: p in before + after ==> ';' !in p
    requires forall j | 0 <= j < |before| :: JwtValue(before[j]) == None
    requires !HasBearer(h)
    requires h.cookie ==
             Some(Readable(Join(before + [left + Split(SessionCookie(token, secure), ';')[0] + right] + after, ';')))
    requires IsFirstValue(Split(h.cookie.value.text, ';'), found)
    ensures found == Some(token)
  {
    PrintedPair(token, secure);
    var piece := left + (COOKIE_NAME + token) + right;
    PaddedPair(token, left, right);
    hide JwtValue, Split, Join, SessionCookie, HasBearer;
    var pieces := before + [piece] + after;
    forall p | p in pieces ensures ';' !in p {
      assert p in before + after || p == piece;
    }
    SplitJoin(pieces, ';');
    assert pieces[|before|] == piece;
    assert forall j | 0 <= j < |before| :: pieces[j] == before[j];
    assert IsFirstValue(pieces, Some(token));
    FirstValueUnique(pieces, found, Some(token));
  }
}
