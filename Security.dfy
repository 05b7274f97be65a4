/**
 * The form-login handlers and the entry point: where a successful login is
 * sent (with the open-redirect check), which message and failure URL a failed
 * login gets, and whether an unauthenticated request is answered with 401 or
 * redirected to the login page.
 */
module AuthenticationHandlers {
  import opened Wrappers
  import opened JavaStrings
  import opened Http

  const HomeUrl := "/"
  const LoginUrl := "/login"

  // ---------------------------------------------------------------- success

  /**
   * isSafeRedirectUrl as written: a blank target is unsafe, any target
   * starting with "/" is safe, and any other is safe when its host (as
   * `hostOf` parses it) is absent or equals the server name ignoring case.
   */
  predicate SafeRedirectAsWritten(serverName: string, target: string, hostOf: string -> Option<string>) {
    if !HasText(target) then false
    else if StartsWith(target, "/") then true
    else hostOf(target).None? || EqualsIgnoreCase(hostOf(target).value, serverName)
  }

  /**
   * A protocol-relative target "//other.example/..." passes the check as
   * written even when it names a different host.
   */
  lemma ProtocolRelativeTargetPasses(serverName: string, rest: string, hostOf: string -> Option<string>)
    ensures SafeRedirectAsWritten(serverName, "//" + rest, hostOf)
  {
    assert ("//" + rest)[0] == '/' && !IsWhitespace(("//" + rest)[0]);
  }

  /**
   * A target that is a path on this server: one leading "/", not followed
   * by a second "/" or by a backslash (which browsers read as a second "/").
   */
  predicate LocalPath(target: string) {
    StartsWith(target, "/") && !StartsWith(target, "//") && !StartsWith(target, "/\\")
  }

  /** A target with an authority after its leading "/": "//host", or "/" and a backslash before the host. */
  predicate ProtocolRelative(target: string) {
    StartsWith(target, "//") || StartsWith(target, "/\\")
  }

  /** The parsed host is present and is this server's, ignoring case. */
  predicate OwnHost(serverName: string, target: string, hostOf: string -> Option<string>) {
    hostOf(target).Some? && EqualsIgnoreCase(hostOf(target).value, serverName)
  }

  /**
   * isSafeRedirectUrl with the evidently intended rule: a path on this server
   * is safe; a protocol-relative target must name this server's host (a
   * parser that finds no host in "/\other.example" does not make it local);
   * any other target must have no host or this server's host.
   */
  predicate SafeRedirect(serverName: string, target: string, hostOf: string -> Option<string>) {
    if !HasText(target) then false
    else if LocalPath(target) then true
    else if ProtocolRelative(target) then OwnHost(serverName, target, hostOf)
    else hostOf(target).None? || OwnHost(serverName, target, hostOf)
  }

  /**
   * A target accepted by the corrected check is a local path, a
   * protocol-relative URL naming this server, or a URL naming no other host.
   */
  lemma SafeRedirectStaysOnSite(serverName: string, target: string, hostOf: string -> Option<string>)
    ensures SafeRedirect(serverName, target, hostOf) <==>
      HasText(target) && (LocalPath(target) || OwnHost(serverName, target, hostOf)
                          || (!ProtocolRelative(target) && hostOf(target).None?))
    ensures SafeRedirect(serverName, target, hostOf) && ProtocolRelative(target) ==>
      OwnHost(serverName, target, hostOf)
  {
  }

  /**
   * The two checks differ exactly on the protocol-relative targets that do
   * not name this server: another host, or no host the parser can find.
   */
  lemma CorrectionOnlyNarrowsProtocolRelative(serverName: string, target: string, hostOf: string -> Option<string>)
    ensures SafeRedirect(serverName, target, hostOf) ==> SafeRedirectAsWritten(serverName, target, hostOf)
    ensures SafeRedirectAsWritten(serverName, target, hostOf) && !SafeRedirect(serverName, target, hostOf) <==>
      HasText(target) && ProtocolRelative(target) && !OwnHost(serverName, target, hostOf)
  {
  }

  /** "/\other.example" is refused by the corrected check even when the parser finds no host in it. */
  lemma BackslashTargetRefused(serverName: string, rest: string, hostOf: string -> Option<string>)
    requires hostOf("/\\" + rest).None?
    ensures SafeRedirectAsWritten(serverName, "/\\" + rest, hostOf)
    ensures !SafeRedirect(serverName, "/\\" + rest, hostOf)
  {
    assert ("/\\" + rest)[0] == '/' && !IsWhitespace(("/\\" + rest)[0]);
    assert StartsWith("/\\" + rest, "/\\");
  }

  /** Where onAuthenticationSuccess sends the user. */
  datatype SuccessRedirect = SavedTarget(url: string) | Home | DefaultTarget(url: string)

  /**
   * onAuthenticationSuccess as written: with a saved request, its URL when
   * the check as written accepts it and "/" otherwise; without one, the
   * default target "/".
   */
  function OnSuccessAsWritten(savedRedirect: Option<string>, serverName: string, hostOf: string -> Option<string>): (r: SuccessRedirect)
    ensures savedRedirect.None? ==> r == DefaultTarget(HomeUrl)
    ensures savedRedirect.Some? && SafeRedirectAsWritten(serverName, savedRedirect.value, hostOf) ==> r == SavedTarget(savedRedirect.value)
    ensures savedRedirect.Some? && !SafeRedirectAsWritten(serverName, savedRedirect.value, hostOf) ==> r == Home
  {
    match savedRedirect {
      case None => DefaultTarget(HomeUrl)
      case Some(target) => if SafeRedirectAsWritten(serverName, target, hostOf) then SavedTarget(target) else Home
    }
  }

  /**
   * onAuthenticationSuccess with the corrected check: with a saved request,
   * its URL when safe and "/" otherwise; without one, the default target "/".
   */
  function OnSuccess(savedRedirect: Option<string>, serverName: string, hostOf: string -> Option<string>): (r: SuccessRedirect)
    ensures savedRedirect.None? ==> r == DefaultTarget(HomeUrl)
    ensures savedRedirect.Some? && SafeRedirect(serverName, savedRedirect.value, hostOf) ==> r == SavedTarget(savedRedirect.value)
    ensures savedRedirect.Some? && !SafeRedirect(serverName, savedRedirect.value, hostOf) ==> r == Home
  {
    match savedRedirect {
      case None => DefaultTarget(HomeUrl)
      case Some(target) => if SafeRedirect(serverName, target, hostOf) then SavedTarget(target) else Home
    }
  }

  /** The URL the browser is sent to. */
  function RedirectUrl(r: SuccessRedirect): string {
    match r {
      case SavedTarget(url) => url
      case Home => HomeUrl
      case DefaultTarget(url) => url
    }
  }

  /**
   * As written, a saved protocol-relative target naming another host is
   * where the browser is sent; the corrected handler sends it home.
   */
  lemma SavedProtocolRelativeTargetFollowed(rest: string, serverName: string, hostOf: string -> Option<string>)
    requires hostOf("//" + rest).Some? && !EqualsIgnoreCase(hostOf("//" + rest).value, serverName)
    ensures RedirectUrl(OnSuccessAsWritten(Some("//" + rest), serverName, hostOf)) == "//" + rest
    ensures RedirectUrl(OnSuccess(Some("//" + rest), serverName, hostOf)) == HomeUrl
  {
    ProtocolRelativeTargetPasses(serverName, rest, hostOf);
    assert !LocalPath("//" + rest) by { assert StartsWith("//" + rest, "//"); }
  }

  /**
   * With the corrected check the browser is sent to a local path or to a
   * URL whose parsed host is absent or this server's.
   */
  lemma LoginNeverRedirectsOffSite(savedRedirect: Option<string>, serverName: string, hostOf: string -> Option<string>)
    ensures var url := RedirectUrl(OnSuccess(savedRedirect, serverName, hostOf));
            LocalPath(url) || OwnHost(serverName, url, hostOf) || (!ProtocolRelative(url) && hostOf(url).None?)
  {
    assert LocalPath(HomeUrl);
  }

  // ---------------------------------------------------------------- failure

  /** The authentication exceptions the failure handler tells apart. */
  datatype AuthFailure = Locked | Disabled | BadCredentials | OtherFailure(name: string)

  const DefaultFailureMessage := "아이디 또는 비밀번호가 올바르지 않습니다."
  const LockedMessage := "계정이 잠겨있습니다. 관리자에게 문의하세요."
  const DisabledMessage := "비활성화된 계정입니다."
  const BadCredentialsMessage := "아이디 또는 비밀번호를 확인해주세요."
  const FailureUrlPrefix := "/login?error=true&message="

  /** The message shown for each failure. */
  function FailureMessage(e: AuthFailure): (m: string)
    ensures e.Locked? <==> m == LockedMessage
    ensures e.Disabled? <==> m == DisabledMessage
    ensures e.BadCredentials? <==> m == BadCredentialsMessage
    ensures e.OtherFailure? <==> m == DefaultFailureMessage
  {
    match e {
      case Locked => LockedMessage
      case Disabled => DisabledMessage
      case BadCredentials => BadCredentialsMessage
      case OtherFailure(_) => DefaultFailureMessage
    }
  }

  newtype byte = x: int | 0 <= x < 256

  /** The UTF-8 encoding of one character. */
  function Utf8(c: char): (r: seq<byte>)
    ensures 1 <= |r| <= 4
    ensures (c as int < 0x80) <==> |r| == 1
    ensures |r| == 1 ==> r[0] as int == c as int
    ensures |r| > 1 ==> forall i :: 0 <= i < |r| ==> r[i] >= 0x80
  {
    var n := c as int;
    if n < 0x80 then [n as byte]
    else if n < 0x800 then [(0xC0 + n / 64) as byte, (0x80 + n % 64) as byte]
    else if n < 0x10000 then [(0xE0 + n / 4096) as byte, (0x80 + (n / 64) % 64) as byte, (0x80 + n % 64) as byte]
    else [(0xF0 + n / 262144) as byte, (0x80 + (n / 4096) % 64) as byte, (0x80 + (n / 64) % 64) as byte, (0x80 + n % 64) as byte]
  }

  function Utf8String(s: string): seq<byte> {
    if s == [] then [] else Utf8(s[0]) + Utf8String(s[1..])
  }

  /** The bytes URLEncoder leaves as they are: ASCII letters, digits and . - * _ */
  predicate Unreserved(b: int) {
    ('a' as int <= b <= 'z' as int) || ('A' as int <= b <= 'Z' as int) || ('0' as int <= b <= '9' as int)
    || b == '.' as int || b == '-' as int || b == '*' as int || b == '_' as int
  }

  function HexDigit(d: int): char
    requires 0 <= d < 16
  {
    if d < 10 then ('0' as int + d) as char else ('A' as int + d - 10) as char
  }

  function HexValue(c: char): Option<int> {
    if '0' <= c <= '9' then Some(c as int - '0' as int)
    else if 'A' <= c <= 'F' then Some(c as int - 'A' as int + 10)
    else None
  }

  /** One byte in application/x-www-form-urlencoded form. */
  function EncodeByte(b: byte): string {
    if Unreserved(b as int) then [b as int as char]
    else if b == 0x20 then "+"
    else ['%', HexDigit(b as int / 16), HexDigit(b as int % 16)]
  }

  function EncodeBytes(bs: seq<byte>): string {
    if bs == [] then [] else EncodeByte(bs[0]) + EncodeBytes(bs[1..])
  }

  /** URLEncoder.encode(s, UTF-8). */
  function UrlEncode(s: string): string {
    EncodeBytes(Utf8String(s))
  }

  /** The form decoding of an encoded string back to bytes; none for a malformed string. */
  function DecodeBytes(s: string): Option<seq<byte>>
    decreases |s|
  {
    if s == [] then Some([])
    else if s[0] == '+' then Prepend(0x20, DecodeBytes(s[1..]))
    else if s[0] == '%' then
      if |s| >= 3 && HexValue(s[1]).Some? && HexValue(s[2]).Some? then
        Prepend((HexValue(s[1]).value * 16 + HexValue(s[2]).value) as byte, DecodeBytes(s[3..]))
      else None
    else if Unreserved(s[0] as int) then Prepend(s[0] as int as byte, DecodeBytes(s[1..]))
    else None
  }

  function Prepend(b: byte, rest: Option<seq<byte>>): Option<seq<byte>> {
    if rest.None? then None else Some([b] + rest.value)
  }

  lemma HexRoundTrip(d: int)
    requires 0 <= d < 16
    ensures HexValue(HexDigit(d)) == Some(d)
  {
  }

  /** Decoding one encoded byte in front of the rest. */
  lemma DecodeByteThenRest(b: byte, rest: string)
    ensures DecodeBytes(EncodeByte(b) + rest) == Prepend(b, DecodeBytes(rest))
  {
    var s := EncodeByte(b) + rest;
    if !Unreserved(b as int) && b != 0x20 {
      HexRoundTrip(b as int / 16);
      HexRoundTrip(b as int % 16);
      assert s[3..] == rest;
    } else {
      assert s[1..] == rest;
    }
  }

  /** Form encoding is undone by form decoding. */
  lemma {:induction false} EncodeBytesRoundTrip(bs: seq<byte>)
    ensures DecodeBytes(EncodeBytes(bs)) == Some(bs)
  {
    if bs != [] {
      EncodeBytesRoundTrip(bs[1..]);
      DecodeByteThenRest(bs[0], EncodeBytes(bs[1..]));
      assert [bs[0]] + bs[1..] == bs;
    }
  }

  /** The characters an encoded value is made of. */
  predicate EncodedChar(c: char) {
    Unreserved(c as int) || c == '+' || c == '%' || ('A' <= c <= 'F')
  }

  lemma {:induction false} EncodeBytesCharset(bs: seq<byte>)
    ensures forall i :: 0 <= i < |EncodeBytes(bs)| ==> EncodedChar(EncodeBytes(bs)[i])
  {
    if bs != [] {
      EncodeBytesCharset(bs[1..]);
      var head, tail := EncodeByte(bs[0]), EncodeBytes(bs[1..]);
      assert EncodeBytes(bs) == head + tail;
      assert forall i :: 0 <= i < |head| ==> EncodedChar(head[i]);
    }
  }

  /** defaultFailureUrl for a message: the login page with the error flag and the encoded message. */
  function FailureUrlFor(message: string): string {
    FailureUrlPrefix + UrlEncode(message)
  }

  /** The failure URL chosen for an exception. */
  function FailureUrl(e: AuthFailure): string {
    FailureUrlFor(FailureMessage(e))
  }

  /**
   * The failure URL carries the message as its last query parameter, intact:
   * the encoded part has no '&', '=' or '#', and decodes to the message's UTF-8 bytes.
   */
  lemma FailureUrlCarriesMessage(message: string)
    ensures StartsWith(FailureUrlFor(message), FailureUrlPrefix)
    ensures var encoded := FailureUrlFor(message)[|FailureUrlPrefix|..];
            && '&' !in encoded && '=' !in encoded && '#' !in encoded
            && DecodeBytes(encoded) == Some(Utf8String(message))
  {
    var encoded := UrlEncode(message);
    assert FailureUrlFor(message)[|FailureUrlPrefix|..] == encoded;
    EncodeBytesCharset(Utf8String(message));
    EncodeBytesRoundTrip(Utf8String(message));
  }

  /** Messages with different encodings lead to different failure URLs. */
  lemma FailureUrlsDistinguishMessages(m1: string, m2: string)
    requires Utf8String(m1) != Utf8String(m2)
    ensures FailureUrlFor(m1) != FailureUrlFor(m2)
  {
    FailureUrlCarriesMessage(m1);
    FailureUrlCarriesMessage(m2);
  }

  // ---------------------------------------------------------------- entry point

  /** isAjaxOrApiRequest: an XMLHttpRequest marker, a JSON body, or a client that accepts JSON. */
  predicate IsAjaxOrApiRequest(req: Request) {
    Header(req, "X-Requested-With") == Some("XMLHttpRequest")
    || (Header(req, "Content-Type").Some? && StartsWith(Header(req, "Content-Type").value, "application/json"))
    || (Header(req, "Accept").Some? && Contains(Header(req, "Accept").value, "application/json"))
  }

  const UnauthorizedContentType := "application/json;charset=UTF-8"
  const UnauthorizedBody := "{\"error\": \"Unauthorized\", \"message\": \"로그인이 필요합니다.\"}"

  /** What commence writes. */
  datatype EntryResponse = JsonError(status: int, contentType: string, body: string) | Redirect(location: string)

  /** commence: API clients get 401 with a JSON error; browsers are sent to the login page. */
  function Commence(req: Request): (r: EntryResponse)
    ensures r.JsonError? <==> IsAjaxOrApiRequest(req)
    ensures r.JsonError? ==> r == JsonError(StatusUnauthorized, UnauthorizedContentType, UnauthorizedBody)
    ensures r.Redirect? ==> r.location == LoginUrl
  {
    if IsAjaxOrApiRequest(req) then JsonError(StatusUnauthorized, UnauthorizedContentType, UnauthorizedBody)
    else Redirect(LoginUrl)
  }

  /** A request that accepts JSON is an API request whatever its other headers. */
  lemma AcceptJsonIsApi(req: Request, accept: string)
    requires Contains(accept, "application/json")
    ensures Commence(req.(headers := req.headers["Accept" := accept])).JsonError?
  {
  }

  /** A request with none of the three markers is redirected. */
  lemma PlainBrowserIsRedirected(req: Request)
    requires "X-Requested-With" !in req.headers && "Content-Type" !in req.headers && "Accept" !in req.headers
    ensures Commence(req) == Redirect(LoginUrl)
  {
  }
}

/** The JPA auditor: the name recorded as creator or last modifier. */
module Auditing {
  import opened Wrappers
  import opened AmbientContext

  const SystemAuditor := "SYSTEM"
  const AnonymousPrincipal := "anonymousUser"

  /**
   * auditorProvider: "SYSTEM" without an authentication, for an
   * unauthenticated one or for the anonymous principal; otherwise the
   * authentication's name, which may be absent.
   */
  function CurrentAuditor(auth: Option<Authentication>): (r: Option<string>)
    ensures auth.None? ==> r == Some(SystemAuditor)
    ensures auth.Some? && (!auth.value.authenticated || auth.value.principal == Named(AnonymousPrincipal)) ==>
      r == Some(SystemAuditor)
    ensures auth.Some? && auth.value.authenticated && auth.value.principal != Named(AnonymousPrincipal) ==>
      r == auth.value.name
  {
    match auth {
      case None => Some(SystemAuditor)
      case Some(a) =>
        if !a.authenticated || a.principal == Named(AnonymousPrincipal) then Some(SystemAuditor) else a.name
    }
  }

  /** The auditor is absent only for a signed-in user without a name. */
  lemma AuditorAbsentOnlyWithoutName(auth: Option<Authentication>)
    ensures CurrentAuditor(auth).None? <==>
      auth.Some? && auth.value.authenticated && auth.value.principal != Named(AnonymousPrincipal) && auth.value.name.None?
  {
  }
}
