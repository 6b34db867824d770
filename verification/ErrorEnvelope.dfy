/** API errors and the two ways they reach a client: rendered directly, or squeezed through `?`
    into a text `<base>!!<payload>` and rebuilt from it. */
module ErrorEnvelope {
  import opened Text
  import opened Decimal

  datatype ErrorDetail = ErrorDetail(code: Option<string>, field: Option<string>, detail: Option<string>)

  datatype ApiError =
    | BadRequest(payload: Option<string>)
    | NotFound
    | Conflict(payload: Option<string>)
    | Gone(payload: Option<string>)
    | VerificationFailed
    | InvalidProof
    | Unauthorized
    | Forbidden(payload: Option<string>)
    | PayloadTooLarge(payload: Option<string>)
    | UnsupportedMediaType
    | TooManyRequests(payload: Option<string>)
    | PaymentRequired(payload: Option<string>)
    | ServiceUnavailable(payload: Option<string>)
    | Internal(cause: string)

  // ---------------------------------------------------------------- structured details

  const SENTINEL := "__SD__"

  function EncodeDetail(d: ErrorDetail): string {
    SENTINEL + "|" + (GetOr(d.code, "") + "|" +
      (ReplaceChar(GetOr(d.field, ""), '|', '/') + "|" + ReplaceChar(GetOr(d.detail, ""), '|', '/')))
  }

  function NonEmpty(s: string): Option<string> {
    if s == "" then None else Some(s)
  }

  function Piece(pieces: seq<string>, i: nat): string {
    if i < |pieces| then pieces[i] else ""
  }

  function DecodeDetail(s: string): Option<ErrorDetail> {
    var pieces := SplitN(s, "|", 4);
    if pieces[0] != SENTINEL then None
    else Some(ErrorDetail(NonEmpty(Piece(pieces, 1)), NonEmpty(Piece(pieces, 2)), NonEmpty(Piece(pieces, 3))))
  }

  /** What of a detail survives: empty texts are absent, bars in field and detail are slashes. */
  function Canonical(d: ErrorDetail): ErrorDetail {
    ErrorDetail(NonEmpty(GetOr(d.code, "")),
                NonEmpty(ReplaceChar(GetOr(d.field, ""), '|', '/')),
                NonEmpty(ReplaceChar(GetOr(d.detail, ""), '|', '/')))
  }

  lemma SplitNCons(a: string, rest: string, n: nat)
    requires '|' !in a && n >= 2
    ensures SplitN(a + "|" + rest, "|", n) == [a] + SplitN(rest, "|", n - 1)
  {
    SplitOnceAfter(a, "|", rest);
  }

  lemma LastPiece(s: string)
    ensures SplitN(s, "|", 1) == [s]
  {
  }

  lemma FourPieces(a: string, b: string, c: string, d: string)
    requires '|' !in a && '|' !in b && '|' !in c
    ensures SplitN(a + "|" + (b + "|" + (c + "|" + d)), "|", 4) == [a, b, c, d]
  {
    hide SplitN;
    SplitNCons(a, b + "|" + (c + "|" + d), 4);
    SplitNCons(b, c + "|" + d, 3);
    SplitNCons(c, d, 2);
    LastPiece(d);
  }

  lemma DecodeOfParts(code: string, field: string, detail: string)
    requires '|' !in code && '|' !in field
    ensures DecodeDetail(SENTINEL + "|" + (code + "|" + (field + "|" + detail))) ==
              Some(ErrorDetail(NonEmpty(code), NonEmpty(field), NonEmpty(detail)))
  {
    hide SplitN;
    assert '|' !in SENTINEL;
    FourPieces(SENTINEL, code, field, detail);
  }

  /** A text with a bar is the part before its first bar, the bar, and the rest. */
  lemma AtFirstBar(s: string) returns (head: string, tail: string)
    requires '|' in s
    ensures s == head + "|" + tail && '|' !in head
  {
    if Find(s, "|") == None {
      FindNone(s, "|");
    }
    SplitOnceParts(s, "|");
    FindFirst(s, "|");
    head, tail := SplitOnce(s, "|").value.0, SplitOnce(s, "|").value.1;
  }

  lemma NoBars(s: string)
    ensures '|' !in ReplaceChar(s, '|', '/')
  {
  }

  /** A code with a bar shifts the fields: what is decoded is the code's first piece, the piece up
      to the next bar, and a remainder that still holds a bar. */
  lemma ShiftedDecode(d: ErrorDetail) returns (head: string, field: string, rest: string)
    requires '|' in GetOr(d.code, "")
    ensures EncodeDetail(d) == SENTINEL + "|" + (head + "|" + (field + "|" + rest))
    ensures '|' !in head && '|' !in field && '|' in rest && |head| < |GetOr(d.code, "")|
    ensures DecodeDetail(EncodeDetail(d)) == Some(ErrorDetail(NonEmpty(head), NonEmpty(field), NonEmpty(rest)))
  {
    var code, f := GetOr(d.code, ""), ReplaceChar(GetOr(d.field, ""), '|', '/');
    var t := ReplaceChar(GetOr(d.detail, ""), '|', '/');
    var more: string;
    head, more := AtFirstBar(code);
    var tail := more + "|" + (f + "|" + t);
    assert (f + "|" + t)[|f|] == '|';
    if '|' in more {
      var more2: string;
      field, more2 := AtFirstBar(more);
      rest := more2 + "|" + (f + "|" + t);
      assert rest[|more2|] == '|';
      assert tail == field + "|" + rest;
    } else {
      field, rest := more, f + "|" + t;
    }
    assert code + "|" + (f + "|" + t) == head + "|" + tail;
    DecodeOfParts(head, field, rest);
  }

  /** Decoding what was encoded gives the canonical detail exactly when the code has no bar. */
  lemma DetailRoundTrip(d: ErrorDetail)
    ensures DecodeDetail(EncodeDetail(d)) == Some(Canonical(d)) <==> '|' !in GetOr(d.code, "")
    ensures Canonical(d) == d && '|' !in GetOr(d.code, "") ==> DecodeDetail(EncodeDetail(d)) == Some(d)
  {
    if '|' in GetOr(d.code, "") {
      var head, field, rest := ShiftedDecode(d);
      assert NonEmpty(head) != Canonical(d).code;
    } else {
      NoBars(GetOr(d.field, ""));
      DecodeOfParts(GetOr(d.code, ""), ReplaceChar(GetOr(d.field, ""), '|', '/'),
                    ReplaceChar(GetOr(d.detail, ""), '|', '/'));
    }
  }

  lemma ReplaceAgain(s: string)
    requires '|' !in s
    ensures ReplaceChar(s, '|', '/') == s
  {
  }

  lemma SameTail(a: string, b: string, c: string, x: string, y: string)
    requires a + "|" + (b + "|" + (c + "|" + x)) == a + "|" + (b + "|" + (c + "|" + y))
    ensures x == y
  {
    var s, t := a + "|" + (b + "|" + (c + "|" + x)), a + "|" + (b + "|" + (c + "|" + y));
    var n := |a| + |b| + |c| + 3;
    assert s[n..] == x && t[n..] == y;
  }

  /** Encoding is stable under another decode and encode, again exactly when the code has no bar. */
  lemma EncodingIsStable(d: ErrorDetail)
    ensures DecodeDetail(EncodeDetail(d)).Some?
    ensures EncodeDetail(DecodeDetail(EncodeDetail(d)).value) == EncodeDetail(d) <==> '|' !in GetOr(d.code, "")
  {
    if '|' in GetOr(d.code, "") {
      var head, field, rest := ShiftedDecode(d);
      ReplaceAgain(field);
      NoBars(rest);
      if EncodeDetail(DecodeDetail(EncodeDetail(d)).value) == EncodeDetail(d) {
        SameTail(SENTINEL, head, field, rest, ReplaceChar(rest, '|', '/'));
      }
    } else {
      DetailRoundTrip(d);
      var c := Canonical(d);
      NoBars(GetOr(d.field, ""));
      NoBars(GetOr(d.detail, ""));
      ReplaceAgain(GetOr(c.field, ""));
      ReplaceAgain(GetOr(c.detail, ""));
    }
  }

  lemma FirstPieceOf(s: string)
    ensures SplitN(s, "|", 4)[0] == match SplitOnce(s, "|") { case None => s case Some(cut) => cut.0 }
  {
  }

  /** A text is structured exactly when it is the sentinel, alone or before a bar; whatever fields it
      leaves out are absent. */
  lemma DecodeMeans(s: string, code: string, field: string)
    requires '|' !in code && '|' !in field
    ensures DecodeDetail(s).Some? <==> s == "__SD__" || "__SD__|" <= s
    ensures DecodeDetail("__SD__") == Some(ErrorDetail(None, None, None))
    ensures DecodeDetail("__SD__" + "|" + code) == Some(ErrorDetail(NonEmpty(code), None, None))
    ensures DecodeDetail("__SD__" + "|" + (code + "|" + field)) ==
              Some(ErrorDetail(NonEmpty(code), NonEmpty(field), None))
  {
    StructuredMeans(s);
    DecodeShort(code, field);
  }

  lemma StructuredMeans(s: string)
    ensures DecodeDetail(s).Some? <==> s == "__SD__" || "__SD__|" <= s
  {
    hide SplitN, Find;
    FirstPieceOf(s);
    assert '|' !in SENTINEL && "__SD__|" == SENTINEL + "|";
    if SplitOnce(s, "|").Some? {
      SplitOnceParts(s, "|");
      if "__SD__|" <= s {
        assert s == SENTINEL + "|" + s[7..];
        SplitOnceAfter(SENTINEL, "|", s[7..]);
      }
    } else if "__SD__|" <= s {
      assert s == SENTINEL + "|" + s[7..];
      SplitOnceAfter(SENTINEL, "|", s[7..]);
    }
  }

  lemma NoMorePieces(s: string, n: nat)
    requires '|' !in s && n >= 1
    ensures SplitN(s, "|", n) == [s]
  {
    SplitOnceAbsent(s, "|");
  }

  lemma DecodeShort(code: string, field: string)
    requires '|' !in code && '|' !in field
    ensures DecodeDetail("__SD__") == Some(ErrorDetail(None, None, None))
    ensures DecodeDetail("__SD__" + "|" + code) == Some(ErrorDetail(NonEmpty(code), None, None))
    ensures DecodeDetail("__SD__" + "|" + (code + "|" + field)) ==
              Some(ErrorDetail(NonEmpty(code), NonEmpty(field), None))
  {
    hide SplitN;
    assert '|' !in SENTINEL;
    NoMorePieces(SENTINEL, 4);
    SplitNCons(SENTINEL, code, 4);
    NoMorePieces(code, 3);
    SplitNCons(SENTINEL, code + "|" + field, 4);
    SplitNCons(code, field, 3);
    NoMorePieces(field, 2);
  }

  // ---------------------------------------------------------------- the payload of an error

  const STATUS_PREFIX := "__STATUS:"

  /** The status override a payload carries, and the text after it. */
  function StripStatus(raw: string): (Option<nat>, string) {
    match StripPrefix(raw, STATUS_PREFIX)
    case None => (None, raw)
    case Some(stripped) =>
      match SplitOnce(stripped, "__")
      case None => (None, raw)
      case Some((n, after)) =>
        match Parse(n, U16_MAX)
        case None => (None, raw)
        case Some(status) => (Some(status), after)
  }

  function ExtractPayload(p: Option<string>): (Option<nat>, Option<ErrorDetail>) {
    match p
    case None => (None, None)
    case Some(raw) =>
      var (status, rest) := StripStatus(raw);
      match DecodeDetail(rest)
      case Some(d) => (status, Some(d))
      case None => (status, Some(ErrorDetail(None, None, Some(rest))))
  }

  function Payload(e: ApiError): Option<string> {
    match e
    case BadRequest(p) => p
    case Conflict(p) => p
    case Gone(p) => p
    case Forbidden(p) => p
    case PayloadTooLarge(p) => p
    case TooManyRequests(p) => p
    case PaymentRequired(p) => p
    case ServiceUnavailable(p) => p
    case _ => None
  }

  // ---------------------------------------------------------------- responses

  datatype ErrorBody = ErrorBody(error: string, code: string, field: Option<string>, detail: Option<string>,
                                 requestId: string)

  datatype Response = Response(status: nat, body: ErrorBody, headers: map<string, string>)

  /** Status, code and message of each kind of error. */
  datatype Kind = Kind(status: nat, code: string, message: string)

  function KindOf(e: ApiError): Kind {
    match e
    case BadRequest(_) => Kind(400, "BAD_REQUEST", "Invalid request")
    case NotFound => Kind(404, "NOT_FOUND", "Not found")
    case Conflict(_) => Kind(409, "CONFLICT", "Request conflict")
    case UnsupportedMediaType => Kind(415, "UNSUPPORTED_MEDIA_TYPE", "Content-Type must be application/json")
    case Gone(_) => Kind(410, "GONE", "Resource no longer available")
    case VerificationFailed => Kind(400, "VERIFICATION_FAILED", "Verification failed")
    case InvalidProof => Kind(400, "INVALID_PROOF", "Invalid proof")
    case Unauthorized => Kind(401, "UNAUTHORIZED", "Authentication required")
    case Forbidden(_) => Kind(403, "FORBIDDEN", "Access denied")
    case PayloadTooLarge(_) => Kind(413, "PAYLOAD_TOO_LARGE", "Request too large")
    case TooManyRequests(_) => Kind(429, "TOO_MANY_REQUESTS", "Rate limit exceeded")
    case PaymentRequired(_) => Kind(402, "PAYMENT_REQUIRED", "Insufficient credits")
    case ServiceUnavailable(_) => Kind(503, "SERVICE_UNAVAILABLE", "Service temporarily unavailable")
    case Internal(_) => Kind(500, "INTERNAL_ERROR", "Internal server error")
  }

  /** The `Display` text of an error. */
  function Base(e: ApiError): string {
    match e
    case BadRequest(_) => "bad-request"
    case NotFound => "not-found"
    case Conflict(_) => "conflict"
    case Gone(_) => "gone"
    case VerificationFailed => "verification-failed"
    case InvalidProof => "invalid-proof"
    case Unauthorized => "unauthorized"
    case Forbidden(_) => "forbidden"
    case PayloadTooLarge(_) => "payload-too-large"
    case UnsupportedMediaType => "unsupported-media-type"
    case TooManyRequests(_) => "too-many-requests"
    case PaymentRequired(_) => "payment-required"
    case ServiceUnavailable(_) => "service-unavailable"
    case Internal(_) => "internal-server-error"
  }

  /** The envelope's payload is cut off first, so a propagated text is recognised by its base. */
  function StatusForDisplay(s: string): Option<(nat, string)> {
    StatusForBase(Split(s, "!!")[0])
  }

  function StatusForBase(base: string): Option<(nat, string)> {
    if base == "bad-request" then Some((400, "BAD_REQUEST"))
    else if base == "not-found" then Some((404, "NOT_FOUND"))
    else if base == "conflict" then Some((409, "CONFLICT"))
    else if base == "gone" then Some((410, "GONE"))
    else if base == "verification-failed" then Some((400, "VERIFICATION_FAILED"))
    else if base == "invalid-proof" then Some((400, "INVALID_PROOF"))
    else if base == "unauthorized" then Some((401, "UNAUTHORIZED"))
    else if base == "forbidden" then Some((403, "FORBIDDEN"))
    else if base == "payload-too-large" then Some((413, "PAYLOAD_TOO_LARGE"))
    else if base == "unsupported-media-type" then Some((415, "UNSUPPORTED_MEDIA_TYPE"))
    else if base == "too-many-requests" then Some((429, "TOO_MANY_REQUESTS"))
    else if base == "payment-required" then Some((402, "PAYMENT_REQUIRED"))
    else if base == "service-unavailable" then Some((503, "SERVICE_UNAVAILABLE"))
    else if base == "internal-server-error" then Some((500, "INTERNAL_ERROR"))
    else None
  }

  function MessageForDisplay(base: string): string {
    if base == "bad-request" then "Invalid request"
    else if base == "not-found" then "Not found"
    else if base == "conflict" then "Request conflict"
    else if base == "gone" then "Resource no longer available"
    else if base == "verification-failed" then "Verification failed"
    else if base == "invalid-proof" then "Invalid proof"
    else if base == "unauthorized" then "Authentication required"
    else if base == "forbidden" then "Access denied"
    else if base == "payload-too-large" then "Request too large"
    else if base == "unsupported-media-type" then "Content-Type must be application/json"
    else if base == "too-many-requests" then "Rate limit exceeded"
    else if base == "payment-required" then "Insufficient credits"
    else if base == "service-unavailable" then "Service temporarily unavailable"
    else "Internal server error"
  }

  const COMMON_HEADERS := map[
    "Content-Type" := "application/json; charset=utf-8",
    "Cache-Control" := "no-store, no-cache, must-revalidate, private",
    "Pragma" := "no-cache",
    "Expires" := "0"]

  /** A response with the common headers, and Clear-Site-Data when `clear`. */
  function Rendered(status: nat, message: string, code: string, detail: Option<ErrorDetail>, clear: bool,
                    requestId: string)
    : Response
  {
    var d := GetOr(detail, ErrorDetail(None, None, None));
    Response(status, ErrorBody(message, GetOr(d.code, code), d.field, d.detail, requestId),
             HeadersWith(clear))
  }

  function HeadersWith(clear: bool): map<string, string> {
    if clear then COMMON_HEADERS["Clear-Site-Data" := "\"*\""] else COMMON_HEADERS
  }

  function DirectResponse(e: ApiError, requestId: string): Response {
    var (override, detail) := ExtractPayload(Payload(e));
    var status := GetOr(override, KindOf(e).status);
    Rendered(status, KindOf(e).message, KindOf(e).code, detail,
             e.Unauthorized? || e.Forbidden? || status == 401, requestId)
  }

  method ToResponse(e: ApiError, requestId: string) returns (r: Response)
    ensures r == DirectResponse(e, requestId)
  {
    var status := KindOf(e).status;
    var (override, detail) := ExtractPayload(Payload(e));
    if override.Some? {
      status := override.value;
    }
    var code, field, text := KindOf(e).code, None, None;
    if detail.Some? {
      code, field, text := GetOr(detail.value.code, code), detail.value.field, detail.value.detail;
    }
    var headers := map[];
    headers := headers["Content-Type" := "application/json; charset=utf-8"];
    headers := headers["Cache-Control" := "no-store, no-cache, must-revalidate, private"];
    headers := headers["Pragma" := "no-cache"];
    headers := headers["Expires" := "0"];
    if e.Unauthorized? || e.Forbidden? || status == 401 {
      headers := headers["Clear-Site-Data" := "\"*\""];
    }
    r := Response(status, ErrorBody(KindOf(e).message, code, field, text, requestId), headers);
  }

  /** `From<ApiError> for worker::Error`: an empty payload is dropped like an absent one. */
  function ToWorkerError(e: ApiError): string {
    match Payload(e)
    case Some(p) => if p != "" then Base(e) + "!!" + p else Base(e)
    case None => Base(e)
  }

  function ParseEnvelope(s: string): (string, Option<string>) {
    match SplitOnce(s, "!!")
    case Some((base, payload)) => (base, Some(payload))
    case None => (s, None)
  }

  function PropagatedResponse(text: string, requestId: string): Response {
    var (base, payload) := ParseEnvelope(text);
    match StatusForDisplay(base)
    case None => Rendered(500, MessageForDisplay("Internal server error"), "INTERNAL_ERROR", None, false, requestId)
    case Some((default, code)) =>
      var (override, detail) := ExtractPayload(payload);
      var status := GetOr(override, default);
      Rendered(status, MessageForDisplay(base), code, detail, status == 401 || status == 403, requestId)
  }

  method BuildErrorResponse(status: nat, code: string, display: string, field: Option<string>, detail: Option<string>,
                            requestId: string)
    returns (r: Response)
    ensures r == Rendered(status, MessageForDisplay(display), code, Some(ErrorDetail(None, field, detail)),
                          status == 401 || status == 403, requestId)
  {
    var headers := map[];
    headers := headers["Content-Type" := "application/json; charset=utf-8"];
    headers := headers["Cache-Control" := "no-store, no-cache, must-revalidate, private"];
    headers := headers["Pragma" := "no-cache"];
    headers := headers["Expires" := "0"];
    if status == 401 || status == 403 {
      headers := headers["Clear-Site-Data" := "\"*\""];
    }
    r := Response(status, ErrorBody(MessageForDisplay(display), code, field, detail, requestId), headers);
  }

  method ResponseFromWorkerError(text: string, requestId: string) returns (r: Response)
    ensures r == PropagatedResponse(text, requestId)
  {
    var (base, payload) := ParseEnvelope(text);
    var known := StatusForDisplay(base);
    if known.None? {
      r := BuildErrorResponse(500, "INTERNAL_ERROR", "Internal server error", None, None, requestId);
      return;
    }
    var (status, code) := known.value;
    var (override, detail) := ExtractPayload(payload);
    if override.Some? {
      status := override.value;
    }
    var field, message := None, None;
    if detail.Some? {
      code, field, message := GetOr(detail.value.code, code), detail.value.field, detail.value.detail;
    }
    r := BuildErrorResponse(status, code, base, field, message, requestId);
  }

  // ---------------------------------------------------------------- propagation preserves meaning

  /** The payloads for which the two renderings agree: not the empty text, and no status override
      that takes a Forbidden out of 401/403 or any other error into 403. */
  predicate Portable(e: ApiError) {
    Payload(e) != Some("") &&
    match ExtractPayload(Payload(e)).0
    case None => true
    case Some(status) => if e.Forbidden? then status == 401 || status == 403 else status != 403
  }

  /** The errors that can carry a payload. */
  predicate Carrier(e: ApiError) {
    e.BadRequest? || e.Conflict? || e.Gone? || e.Forbidden? || e.PayloadTooLarge? || e.TooManyRequests?
    || e.PaymentRequired? || e.ServiceUnavailable?
  }

  lemma NoBangInCarrier(e: ApiError)
    requires Carrier(e)
    ensures '!' !in Base(e)
  {
  }

  lemma NoBang(e: ApiError)
    ensures '!' !in Base(e)
  {
    if Carrier(e) {
      NoBangInCarrier(e);
    }
  }

  lemma BaseIsItself(e: ApiError)
    ensures Split(Base(e), "!!") == [Base(e)]
  {
    NoBang(e);
    SplitOnceAbsent(Base(e), "!!");
  }

  /** The display texts are told apart by their lengths, and where those agree by their first letters. */
  lemma ShortNamesStatus(e: ApiError)
    requires e.BadRequest? || e.Conflict? || e.Gone? || e.Forbidden?
    ensures StatusForBase(Base(e)) == Some((KindOf(e).status, KindOf(e).code))
  {
    if e.Forbidden? {
      assert Base(e)[0] == 'f';
    }
  }

  lemma LongNamesStatus(e: ApiError)
    requires e.PayloadTooLarge? || e.TooManyRequests? || e.PaymentRequired? || e.ServiceUnavailable?
    ensures StatusForBase(Base(e)) == Some((KindOf(e).status, KindOf(e).code))
  {
    match e
    case PayloadTooLarge(_) => assert Base(e)[0] == 'p';
    case TooManyRequests(_) => assert Base(e)[0] == 't';
    case PaymentRequired(_) =>
    case ServiceUnavailable(_) => assert Base(e)[0] == 's';
  }

  lemma OtherNamesStatus(e: ApiError)
    requires !Carrier(e)
    ensures StatusForBase(Base(e)) == Some((KindOf(e).status, KindOf(e).code))
  {
    if e.NotFound? {
      assert Base(e)[0] == 'n';
    } else if e.VerificationFailed? {
      assert Base(e)[0] == 'v';
    }
  }

  lemma BaseNamesStatus(e: ApiError)
    ensures StatusForBase(Base(e)) == Some((KindOf(e).status, KindOf(e).code))
  {
    hide StatusForBase, MessageForDisplay, Base, KindOf;
    if Carrier(e) {
      if e.BadRequest? || e.Conflict? || e.Gone? || e.Forbidden? {
        ShortNamesStatus(e);
      } else {
        LongNamesStatus(e);
      }
    } else {
      OtherNamesStatus(e);
    }
  }

  lemma ShortNamesMessage(e: ApiError)
    requires e.BadRequest? || e.Conflict? || e.Gone? || e.Forbidden?
    ensures MessageForDisplay(Base(e)) == KindOf(e).message
  {
    if e.Forbidden? {
      assert Base(e)[0] == 'f';
    }
  }

  lemma PayNamesMessage(e: ApiError)
    requires e.PaymentRequired? || e.ServiceUnavailable?
    ensures MessageForDisplay(Base(e)) == KindOf(e).message
  {
    if e.ServiceUnavailable? {
      assert Base(e)[0] == 's';
    }
  }

  lemma LongNamesMessage(e: ApiError)
    requires e.PayloadTooLarge? || e.TooManyRequests? || e.PaymentRequired? || e.ServiceUnavailable?
    ensures MessageForDisplay(Base(e)) == KindOf(e).message
  {
    if e.PayloadTooLarge? {
      assert Base(e)[0] == 'p';
    } else if e.TooManyRequests? {
      assert Base(e)[0] == 't';
    } else {
      PayNamesMessage(e);
    }
  }

  lemma FewNamesMessage(e: ApiError)
    requires e.NotFound? || e.VerificationFailed? || e.InvalidProof?
    ensures MessageForDisplay(Base(e)) == KindOf(e).message
  {
    if e.NotFound? {
      assert Base(e)[0] == 'n';
    } else if e.VerificationFailed? {
      assert Base(e)[0] == 'v';
    }
  }

  lemma OtherNamesMessage(e: ApiError)
    requires !Carrier(e)
    ensures MessageForDisplay(Base(e)) == KindOf(e).message
  {
    if e.NotFound? || e.VerificationFailed? || e.InvalidProof? {
      FewNamesMessage(e);
    }
  }

  lemma BaseNamesMessage(e: ApiError)
    ensures MessageForDisplay(Base(e)) == KindOf(e).message
  {
    hide StatusForBase, MessageForDisplay, Base, KindOf;
    if Carrier(e) {
      if e.BadRequest? || e.Conflict? || e.Gone? || e.Forbidden? {
        ShortNamesMessage(e);
      } else {
        LongNamesMessage(e);
      }
    } else {
      OtherNamesMessage(e);
    }
  }

  lemma DisplayNamesKind(e: ApiError)
    ensures StatusForDisplay(Base(e)) == Some((KindOf(e).status, KindOf(e).code))
    ensures MessageForDisplay(Base(e)) == KindOf(e).message
  {
    BaseIsItself(e);
    BaseNamesStatus(e);
    BaseNamesMessage(e);
  }

  lemma EnvelopeRoundTrip(e: ApiError)
    ensures ParseEnvelope(ToWorkerError(e)) == (Base(e), if Payload(e) == Some("") then None else Payload(e))
  {
    NoBang(e);
    SplitOnceAbsent(Base(e), "!!");
    if Payload(e).Some? && Payload(e).value != "" {
      SplitOnceAfter(Base(e), "!!", Payload(e).value);
    }
  }

  /** The empty text carries no sentinel: rendered directly it becomes an empty detail. */
  lemma EmptyPayload()
    ensures ExtractPayload(Some("")) == (None, Some(ErrorDetail(None, None, Some(""))))
  {
    SplitOnceAbsent("", "|");
    assert SplitN("", "|", 4)[0] == "";
    assert |SENTINEL| == 6;
  }

  lemma SameHeaders(a: bool, b: bool)
    ensures HeadersWith(a) == HeadersWith(b) <==> a == b
  {
    assert |"Clear-Site-Data"| == 15 && |"Content-Type"| == 12 && |"Cache-Control"| == 13;
    assert |"Pragma"| == 6 && |"Expires"| == 7;
    assert "Clear-Site-Data" !in COMMON_HEADERS;
  }

  /** What is rebuilt from the text an error was squeezed into. */
  lemma PropagatedIs(e: ApiError, requestId: string)
    ensures var (override, detail) := ExtractPayload(if Payload(e) == Some("") then None else Payload(e));
            var status := GetOr(override, KindOf(e).status);
            PropagatedResponse(ToWorkerError(e), requestId) ==
              Rendered(status, KindOf(e).message, KindOf(e).code, detail, status == 401 || status == 403, requestId)
  {
    hide Base, KindOf, StatusForDisplay, MessageForDisplay, ExtractPayload, Rendered, ToWorkerError, ParseEnvelope;
    DisplayNamesKind(e);
    EnvelopeRoundTrip(e);
  }

  lemma RenderedDiffer(status: nat, message: string, code: string, d: Option<ErrorDetail>, status': nat,
                       message': string,
                       code': string, d': Option<ErrorDetail>, clear: bool, clear': bool, requestId: string)
    requires GetOr(d, ErrorDetail(None, None, None)).detail != GetOr(d', ErrorDetail(None, None, None)).detail
    ensures Rendered(status, message, code, d, clear, requestId) !=
              Rendered(status', message', code', d', clear', requestId)
  {
  }

  lemma RenderedSame(status: nat, message: string, code: string, d: Option<ErrorDetail>, clear: bool, clear': bool,
                     requestId: string)
    ensures var r := Rendered(status, message, code, d, clear, requestId);
            r == Rendered(status, message, code, d, clear', requestId) <==> clear == clear'
  {
    SameHeaders(clear, clear');
  }

  lemma StatusOfKind(e: ApiError)
    ensures KindOf(e).status == 401 <==> e.Unauthorized?
    ensures KindOf(e).status == 403 <==> e.Forbidden?
    ensures Payload(e).Some? ==> Carrier(e)
    ensures ExtractPayload(None) == (None, None)
  {
  }

  /** Propagation through `?` gives the client the response that direct rendering gives - status,
      message, code, field, detail and headers - exactly for the portable payloads, whatever else
      their text contains. */
  lemma PropagationPreservesMeaning(e: ApiError, requestId: string)
    ensures PropagatedResponse(ToWorkerError(e), requestId) == DirectResponse(e, requestId) <==> Portable(e)
  {
    hide PropagatedResponse, ToWorkerError, Rendered, KindOf, ExtractPayload, Payload;
    PropagatedIs(e, requestId);
    StatusOfKind(e);
    var (override, detail) := ExtractPayload(Payload(e));
    var kind := KindOf(e);
    var status := GetOr(override, kind.status);
    var clear, clear' := status == 401 || status == 403, e.Unauthorized? || e.Forbidden? || status == 401;
    if Payload(e) == Some("") {
      EmptyPayload();
      RenderedDiffer(kind.status, kind.message, kind.code, None, status, kind.message, kind.code, detail,
                     kind.status == 401 || kind.status == 403, clear', requestId);
    } else {
      RenderedSame(status, kind.message, kind.code, detail, clear, clear', requestId);
    }
  }

  // ---------------------------------------------------------------- what a payload says

  /** A payload overrides the status exactly when it starts with `__STATUS:`, a number and `__`, and
      then the rest follows; otherwise all of it is the rest. */
  lemma StatusMeans(raw: string, n: nat, rest: string)
    ensures StripStatus(raw) == (Some(n), rest) <==>
              exists num :: raw == "__STATUS:" + (num + "__" + rest) && Parse(num, U16_MAX) == Some(n)
    ensures StripStatus(raw).0 == None ==> StripStatus(raw).1 == raw
  {
    hide Parse, Find;
    if StripStatus(raw) == (Some(n), rest) {
      var stripped := StripPrefix(raw, STATUS_PREFIX).value;
      SplitOnceParts(stripped, "__");
      var num := SplitOnce(stripped, "__").value.0;
      assert raw == STATUS_PREFIX + stripped;
      assert raw == "__STATUS:" + (num + "__" + rest) && Parse(num, U16_MAX) == Some(n);
    }
    if num :| raw == "__STATUS:" + (num + "__" + rest) && Parse(num, U16_MAX) == Some(n) {
      StripOwnPrefix(num + "__" + rest);
      NumberHasNoUnderscore(num, U16_MAX);
      SplitOnceAfter(num, "__", rest);
    }
  }

  lemma NumberHasNoUnderscore(num: string, max: nat)
    requires Parse(num, max).Some?
    ensures '_' !in num
  {
    var digits := if |num| > 1 && num[0] == '+' then num[1..] else num;
    assert AllDigits(digits) && !IsDigit('_');
    assert num == digits || num == "+" + digits;
  }

  lemma PlainPayload(t: string)
    requires !("__STATUS:" <= t) && t != "__SD__" && !("__SD__|" <= t)
    ensures ExtractPayload(Some(t)) == (None, Some(ErrorDetail(None, None, Some(t))))
  {
    hide DecodeDetail;
    StructuredMeans(t);
  }

  /** A plain text payload reaches the client as the detail, with the status, code and message of the
      kind of error, rendered directly and, unless it is empty, after propagation too. */
  lemma PlainTextSays(e: ApiError, t: string, requestId: string)
    requires Payload(e) == Some(t) && !("__STATUS:" <= t) && t != "__SD__" && !("__SD__|" <= t)
    ensures var r := DirectResponse(e, requestId);
            && r.status == KindOf(e).status
            && r.body == ErrorBody(KindOf(e).message, KindOf(e).code, None, Some(t), requestId)
    ensures t != "" ==> PropagatedResponse(ToWorkerError(e), requestId) == DirectResponse(e, requestId)
  {
    PlainPayload(t);
    hide KindOf, ExtractPayload, PropagatedResponse, ToWorkerError;
    PropagationPreservesMeaning(e, requestId);
  }

  /** An error without a payload says its kind and nothing more, on both paths. */
  lemma NoPayloadSays(e: ApiError, requestId: string)
    requires Payload(e) == None
    ensures var r := DirectResponse(e, requestId);
            && r.status == KindOf(e).status
            && r.body == ErrorBody(KindOf(e).message, KindOf(e).code, None, None, requestId)
            && PropagatedResponse(ToWorkerError(e), requestId) == r
  {
    hide KindOf, PropagatedResponse, ToWorkerError, DecodeDetail, StripStatus;
    PropagationPreservesMeaning(e, requestId);
  }

  /** A structured payload reaches the client as its code, field and detail, on both paths. */
  lemma StructuredSays(e: ApiError, d: ErrorDetail, requestId: string)
    requires Payload(e) == Some(EncodeDetail(d)) && '|' !in GetOr(d.code, "")
    ensures var r := DirectResponse(e, requestId);
            && r.status == KindOf(e).status
            && r.body == ErrorBody(KindOf(e).message, GetOr(Canonical(d).code, KindOf(e).code), Canonical(d).field,
                                   Canonical(d).detail, requestId)
            && PropagatedResponse(ToWorkerError(e), requestId) == r
  {
    EncodedHasNoStatus(d);
    EncodedIsPortable(e, d);
    DetailRoundTrip(d);
    hide KindOf, PropagatedResponse, ToWorkerError, EncodeDetail, DecodeDetail, StripStatus, Canonical, Portable;
    PropagationPreservesMeaning(e, requestId);
  }

  /** `before` is the text up to its first `!!`, or all of it if it has none. */
  predicate UpToBangs(text: string, before: string) {
    && before <= text && (forall j: nat | j < |before| :: !OccursAt(text, "!!", j))
    && (OccursAt(text, "!!", |before|) || before == text)
  }

  lemma NoBangsWithin(text: string, before: string)
    requires UpToBangs(text, before)
    ensures Find(before, "!!") == None
    ensures Find(text, "!!") == if OccursAt(text, "!!", |before|) then Some(|before|) else None
  {
    hide Find, OccursAt;
    forall j: nat
      ensures !OccursAt(before, "!!", j)
    {
      if OccursAt(before, "!!", j) {
        OccursInPrefix(text, before, "!!", j);
      }
    }
    NoOccurrence(before, "!!");
    if OccursAt(text, "!!", |before|) {
      FirstOccurrence(text, "!!", |before|);
    }
  }

  lemma EnvelopeBase(text: string, before: string)
    requires UpToBangs(text, before)
    ensures ParseEnvelope(text).0 == before && Split(before, "!!")[0] == before
  {
    hide Find, UpToBangs, OccursAt;
    NoBangsWithin(text, before);
    BeforeIsPrefix(text, before);
    SplitNotFound(before, "!!");
  }

  lemma BeforeIsPrefix(text: string, before: string)
    requires UpToBangs(text, before)
    ensures before <= text && (OccursAt(text, "!!", |before|) || before == text)
  {
  }

  lemma KnownBase(base: string) returns (e: ApiError)
    requires StatusForBase(base).Some?
    ensures Base(e) == base
  {
    e := if base == "bad-request" then BadRequest(None)
         else if base == "not-found" then NotFound
         else if base == "conflict" then Conflict(None)
         else if base == "gone" then Gone(None)
         else if base == "verification-failed" then VerificationFailed
         else if base == "invalid-proof" then InvalidProof
         else if base == "unauthorized" then Unauthorized
         else if base == "forbidden" then Forbidden(None)
         else if base == "payload-too-large" then PayloadTooLarge(None)
         else if base == "unsupported-media-type" then UnsupportedMediaType
         else if base == "too-many-requests" then TooManyRequests(None)
         else if base == "payment-required" then PaymentRequired(None)
         else if base == "service-unavailable" then ServiceUnavailable(None)
         else Internal("");
  }

  /** A text that no error is squeezed into is answered 500, and nothing of it reaches the client. */
  lemma ForeignTextSays(text: string, before: string, requestId: string)
    requires UpToBangs(text, before) && forall e :: Base(e) != before
    ensures PropagatedResponse(text, requestId) ==
              Response(500, ErrorBody("Internal server error", "INTERNAL_ERROR", None, None, requestId), COMMON_HEADERS)
  {
    hide Base, StatusForBase, UpToBangs, Split, ExtractPayload, MessageForDisplay;
    EnvelopeBase(text, before);
    if StatusForBase(before).Some? {
      var e := KnownBase(before);
    }
    UnknownMessage();
  }

  lemma UnknownMessage()
    ensures MessageForDisplay("Internal server error") == "Internal server error"
  {
  }

  // ---------------------------------------------------------------- the constructors

  function BadRequestError(code: string, field: Option<string>, detail: string): ApiError {
    BadRequest(Some(EncodeDetail(ErrorDetail(Some(code), field, Some(detail)))))
  }

  function ForbiddenError(code: string, detail: string): ApiError {
    Forbidden(Some(EncodeDetail(ErrorDetail(Some(code), None, Some(detail)))))
  }

  function ForbiddenFieldError(code: string, field: string, detail: string): ApiError {
    Forbidden(Some(EncodeDetail(ErrorDetail(Some(code), Some(field), Some(detail)))))
  }

  function GoneError(code: string, detail: string): ApiError {
    Gone(Some(EncodeDetail(ErrorDetail(Some(code), None, Some(detail)))))
  }

  function ConflictError(code: string, detail: string): ApiError {
    Conflict(Some(EncodeDetail(ErrorDetail(Some(code), None, Some(detail)))))
  }

  function ServiceUnavailableError(code: string, detail: string): ApiError {
    ServiceUnavailable(Some(EncodeDetail(ErrorDetail(Some(code), None, Some(detail)))))
  }

  /** A BadRequest whose payload overrides the status. */
  function UnauthorizedError(code: string, detail: string): ApiError {
    BadRequest(Some("__STATUS:401__" + EncodeDetail(ErrorDetail(Some(code), None, Some(detail)))))
  }

  lemma EncodedHasNoStatus(d: ErrorDetail)
    ensures StripStatus(EncodeDetail(d)) == (None, EncodeDetail(d))
  {
    assert EncodeDetail(d)[3] == 'D' && STATUS_PREFIX[3] == 'T';
  }

  lemma NoUnderscore(n: nat)
    ensures '_' !in Print(n)
  {
    assert !IsDigit('_');
  }

  lemma StripOwnPrefix(text: string)
    ensures StripPrefix(STATUS_PREFIX + text, STATUS_PREFIX) == Some(text)
  {
    assert (STATUS_PREFIX + text)[|STATUS_PREFIX|..] == text;
  }

  /** A payload that overrides the status with `n`. */
  function WithStatus(n: nat, payload: string): string {
    STATUS_PREFIX + (Print(n) + "__" + payload)
  }

  lemma StatusOfOverride(n: nat, payload: string)
    requires n <= U16_MAX
    ensures StripStatus(WithStatus(n, payload)) == (Some(n), payload)
  {
    hide Parse, StripPrefix, SplitOnce, Print;
    StripOwnPrefix(Print(n) + "__" + payload);
    NoUnderscore(n);
    SplitOnceAfter(Print(n), "__", payload);
    ParseOfPrint(n, U16_MAX);
  }

  /** Which status overrides are portable: a Forbidden may only be turned into 401 or left at 403,
      and nothing else may be turned into 403. */
  lemma PortableOverrides(e: ApiError, n: nat, payload: string)
    requires n <= U16_MAX && Payload(e) == Some(WithStatus(n, payload))
    ensures Portable(e) <==> if e.Forbidden? then n == 401 || n == 403 else n != 403
  {
    hide StripStatus, DecodeDetail;
    assert |WithStatus(n, payload)| > 0;
    StatusOfOverride(n, payload);
  }

  lemma PortablePayload(n: nat, payload: string)
    ensures Payload(Forbidden(Some(WithStatus(n, payload)))) == Some(WithStatus(n, payload))
  {
  }

  lemma OverrideText(payload: string)
    ensures "__STATUS:401__" + payload == WithStatus(401, payload)
  {
    assert Print(4) == "4" && Print(40) == "40";
    assert Print(401) == "401";
    Assoc("401", "__", payload);
    assert "__STATUS:401__" == STATUS_PREFIX + ("401" + "__");
    Assoc(STATUS_PREFIX, "401" + "__", payload);
  }

  lemma EncodedIsPortable(e: ApiError, d: ErrorDetail)
    requires Payload(e) == Some(EncodeDetail(d))
    ensures Portable(e)
  {
    EncodedHasNoStatus(d);
    assert |EncodeDetail(d)| >= |SENTINEL|;
    hide StripStatus, DecodeDetail, EncodeDetail;
  }

  /** A forbidden request reported as 400: only the direct rendering clears stored data. */
  lemma OverrideNotPortable(requestId: string)
    ensures var e := Forbidden(Some(WithStatus(400, "x")));
            && DirectResponse(e, requestId) != PropagatedResponse(ToWorkerError(e), requestId)
  {
    hide DirectResponse, PropagatedResponse, ToWorkerError, Portable, WithStatus;
    var e := Forbidden(Some(WithStatus(400, "x")));
    PortablePayload(400, "x");
    PortableOverrides(e, 400, "x");
    PropagationPreservesMeaning(e, requestId);
  }

  /** Every error built by a constructor is portable, for every code, field and detail, bars,
      exclamation marks and underscores included. */
  lemma ConstructorsArePortable(code: string, field: Option<string>, f: string, detail: string)
    ensures Portable(BadRequestError(code, field, detail))
    ensures Portable(ForbiddenError(code, detail)) && Portable(ForbiddenFieldError(code, f, detail))
    ensures Portable(GoneError(code, detail)) && Portable(ConflictError(code, detail))
    ensures Portable(ServiceUnavailableError(code, detail)) && Portable(UnauthorizedError(code, detail))
  {
    hide Portable, EncodeDetail, WithStatus;
    var d := ErrorDetail(Some(code), None, Some(detail));
    EncodedIsPortable(BadRequestError(code, field, detail), ErrorDetail(Some(code), field, Some(detail)));
    EncodedIsPortable(ForbiddenError(code, detail), d);
    EncodedIsPortable(ForbiddenFieldError(code, f, detail), ErrorDetail(Some(code), Some(f), Some(detail)));
    EncodedIsPortable(GoneError(code, detail), d);
    EncodedIsPortable(ConflictError(code, detail), d);
    EncodedIsPortable(ServiceUnavailableError(code, detail), d);
    OverrideText(EncodeDetail(d));
    PortableOverrides(UnauthorizedError(code, detail), 401, EncodeDetail(d));
  }

  /** The response says this status, message, code, field and detail, on both paths. */
  predicate Says(e: ApiError, status: nat, message: string, code: string, field: Option<string>, detail: string,
                 requestId: string)
  {
    var r := DirectResponse(e, requestId);
    && PropagatedResponse(ToWorkerError(e), requestId) == r
    && r.status == status && r.body == ErrorBody(message, code, field, NonEmpty(detail), requestId)
  }

  lemma CanonicalWithout(code: string, detail: string)
    requires code != ""
    ensures Canonical(ErrorDetail(Some(code), None, Some(detail))) ==
              ErrorDetail(Some(code), None, NonEmpty(ReplaceChar(detail, '|', '/')))
  {
    assert ReplaceChar("", '|', '/') == "";
  }

  /** What the constructors tell the client: the code, field and detail given, bars in the texts
      replaced, with the status and message of the kind. */
  lemma ConstructorsSay(code: string, field: string, detail: string, requestId: string)
    requires code != "" && '|' !in code && field != ""
    ensures var f, t := Some(ReplaceChar(field, '|', '/')), ReplaceChar(detail, '|', '/');
            && Says(BadRequestError(code, Some(field), detail), 400, "Invalid request", code, f, t, requestId)
            && Says(BadRequestError(code, None, detail), 400, "Invalid request", code, None, t, requestId)
            && Says(ForbiddenError(code, detail), 403, "Access denied", code, None, t, requestId)
            && Says(ForbiddenFieldError(code, field, detail), 403, "Access denied", code, f, t, requestId)
            && Says(GoneError(code, detail), 410, "Resource no longer available", code, None, t, requestId)
            && Says(ConflictError(code, detail), 409, "Request conflict", code, None, t, requestId)
            && Says(ServiceUnavailableError(code, detail), 503, "Service temporarily unavailable", code, None, t,
                    requestId)
  {
    hide EncodeDetail, DirectResponse, PropagatedResponse, ToWorkerError, Canonical;
    var d, d' := ErrorDetail(Some(code), None, Some(detail)), ErrorDetail(Some(code), Some(field), Some(detail));
    CanonicalWithout(code, detail);
    CanonicalWith(code, field, detail);
    StructuredSays(BadRequestError(code, Some(field), detail), d', requestId);
    StructuredSays(BadRequestError(code, None, detail), d, requestId);
    StructuredSays(ForbiddenError(code, detail), d, requestId);
    StructuredSays(ForbiddenFieldError(code, field, detail), d', requestId);
    StructuredSays(GoneError(code, detail), d, requestId);
    StructuredSays(ConflictError(code, detail), d, requestId);
    StructuredSays(ServiceUnavailableError(code, detail), d, requestId);
  }

  lemma CanonicalWith(code: string, field: string, detail: string)
    requires code != "" && field != ""
    ensures Canonical(ErrorDetail(Some(code), Some(field), Some(detail))) ==
              ErrorDetail(Some(code), Some(ReplaceChar(field, '|', '/')), NonEmpty(ReplaceChar(detail, '|', '/')))
  {
  }

  /** What `unauthorized` tells the client, on either path: 401, its own code, and that stored data
      is to be cleared. */
  lemma UnauthorizedSays(code: string, detail: string, requestId: string)
    requires code != "" && '|' !in code
    ensures var e := UnauthorizedError(code, detail);
            && Says(e, 401, "Invalid request", code, None, ReplaceChar(detail, '|', '/'), requestId)
            && "Clear-Site-Data" in DirectResponse(e, requestId).headers
  {
    var d := ErrorDetail(Some(code), None, Some(detail));
    ConstructorsArePortable(code, None, "", detail);
    PropagationPreservesMeaning(UnauthorizedError(code, detail), requestId);
    OverrideText(EncodeDetail(d));
    StatusOfOverride(401, EncodeDetail(d));
    DetailRoundTrip(d);
    CanonicalWithout(code, detail);
    hide PropagatedResponse, ToWorkerError, Portable, EncodeDetail, DecodeDetail, StripStatus, Canonical;
  }
}
