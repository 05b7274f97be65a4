/**
 * The correlation-id filter: every request gets a tracing id, the caller's
 * own when it is well formed and a fresh random UUID otherwise; the id is put
 * in the logging context for the rest of the chain, echoed in a response
 * header, and removed from the logging context when the chain returns or
 * throws.
 */
module CorrelationLogging {
  import opened Wrappers
  import opened Http
  import DiagnosticContext

  const CorrelationIdHeader := "X-Correlation-ID"
  const MdcKey := "correlationId"
  const MaxIdLength := 50

  /** A character of the id pattern's class: an ASCII letter, a digit or a hyphen. */
  predicate IdChar(c: char) {
    ('a' <= c <= 'z') || ('A' <= c <= 'Z') || ('0' <= c <= '9') || c == '-'
  }

  /** Every character is in the id pattern's class. */
  function IdChars(s: string): (r: bool)
    ensures r <==> forall i :: 0 <= i < |s| ==> IdChar(s[i])
  {
    if s == [] then true else IdChar(s[0]) && IdChars(s[1..])
  }

  /** The whole header value matches ^[a-zA-Z0-9-]{1,50}$. */
  predicate WellFormedId(s: string) {
    1 <= |s| <= MaxIdLength && IdChars(s)
  }

  /** A lower-case hexadecimal digit, as UUID.toString writes them. */
  predicate HexDigit(c: char) {
    ('0' <= c <= '9') || ('a' <= c <= 'f')
  }

  /** The textual form of a UUID (RFC 9562, section 4): 8-4-4-4-12 hexadecimal digits. */
  predicate UuidText(s: string) {
    |s| == 36
    && forall i :: 0 <= i < 36 ==>
         if i == 8 || i == 13 || i == 18 || i == 23 then s[i] == '-' else HexDigit(s[i])
  }

  /**
   * resolveCorrelationId: the request's header when it is present and well
   * formed, otherwise the fresh UUID.
   */
  function ResolveCorrelationId(header: Option<string>, freshUuid: string): (r: string)
    ensures header.Some? && WellFormedId(header.value) ==> r == header.value
    ensures !(header.Some? && WellFormedId(header.value)) ==> r == freshUuid
  {
    if header.Some? && WellFormedId(header.value) then header.value else freshUuid
  }

  /** Whichever branch is taken, the id in use is well formed. */
  lemma ResolvedIdWellFormed(header: Option<string>, freshUuid: string)
    requires UuidText(freshUuid)
    ensures WellFormedId(ResolveCorrelationId(header, freshUuid))
  {
    forall i | 0 <= i < |freshUuid| ensures IdChar(freshUuid[i]) {
      if !(i == 8 || i == 13 || i == 18 || i == 23) {
        assert HexDigit(freshUuid[i]);
      }
    }
  }

  /** A header that is empty, too long, or holds any other character is never echoed. */
  lemma MalformedHeaderReplaced(header: string, freshUuid: string)
    requires header == [] || |header| > MaxIdLength || exists i :: 0 <= i < |header| && !IdChar(header[i])
    ensures ResolveCorrelationId(Some(header), freshUuid) == freshUuid
  {
  }

  /** What one request through the filter produced. */
  datatype Outcome = Outcome(responseHeaders: map<string, string>, chainSaw: Option<string>, escaped: bool)

  class MdcLoggingFilter {
    const mdc: DiagnosticContext.Mdc

    constructor (mdc: DiagnosticContext.Mdc)
      ensures this.mdc == mdc
    {
      this.mdc := mdc;
    }

    /**
     * doFilterInternal: the resolved id is in the logging context while the
     * chain runs, the response header carries that same id (set, replacing
     * any earlier value), and the key is gone from the logging context on
     * every exit; other keys are untouched.
     */
    method DoFilterInternal(req: Request, responseHeaders: map<string, string>, freshUuid: string, chainThrows: bool)
      returns (out: Outcome)
      modifies mdc
      ensures var id := ResolveCorrelationId(Header(req, CorrelationIdHeader), freshUuid);
              out.chainSaw == Some(id)
              && out.responseHeaders == responseHeaders[CorrelationIdHeader := id]
      ensures out.escaped == chainThrows
      ensures mdc.entries == old(mdc.entries) - {MdcKey}
    {
      var correlationId := ResolveCorrelationId(Header(req, CorrelationIdHeader), freshUuid);
      mdc.Put(MdcKey, correlationId);
      var headers := responseHeaders[CorrelationIdHeader := correlationId];
      // the chain runs here
      var seen := mdc.Get(MdcKey);
      out := Outcome(headers, seen, chainThrows);
      mdc.Remove(MdcKey);
    }
  }

  /** The id a client reads back is the one every log line of the request carried. */
  lemma EchoMatchesLogs(req: Request, responseHeaders: map<string, string>, freshUuid: string, out: Outcome)
    requires out.chainSaw == Some(ResolveCorrelationId(Header(req, CorrelationIdHeader), freshUuid))
    requires out.responseHeaders == responseHeaders[CorrelationIdHeader := out.chainSaw.value]
    requires UuidText(freshUuid)
    ensures CorrelationIdHeader in out.responseHeaders
    ensures Some(out.responseHeaders[CorrelationIdHeader]) == out.chainSaw
    ensures WellFormedId(out.responseHeaders[CorrelationIdHeader])
  {
    ResolvedIdWellFormed(Header(req, CorrelationIdHeader), freshUuid);
  }
}
