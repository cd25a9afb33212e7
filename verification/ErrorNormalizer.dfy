/** The middleware that turns the framework's plain-text errors into the API's
    JSON errors. */
module ErrorNormalizer {
  import opened Ledger

  /** A body: unreadable, or a text together with the `error.code` string a JSON
      parser finds in it (`None` when it is not JSON or has no such string). */
  datatype Body = Broken | Full(text: string, code: Option<string>)

  datatype Response = Response(status: nat, headers: map<string, string>, body: Body)

  const CONTENT_TYPE := "content-type"

  function ContentType(r: Response): string {
    if CONTENT_TYPE in r.headers then r.headers[CONTENT_TYPE] else ""
  }

  predicate Contains(text: string, part: string) {
    exists i | 0 <= i <= |text| :: part <= text[i..]
  }

  predicate IsPlaintextError(r: Response) {
    r.status in {400, 422, 415} && "text/plain" <= ContentType(r)
  }

  predicate IsJsonBadRequest(r: Response) {
    r.status == 400 && "application/json" <= ContentType(r)
  }

  /** The document `{"error":{"code":..,"message":..}}`. */
  function ErrorDocument(code: string, message: string): Body {
    Full("{\"error\":{\"code\":\"" + code + "\",\"message\":\"" + message + "\"}}", Some(code))
  }

  function JsonError(status: nat, code: string, message: string): Response {
    Response(status, map[CONTENT_TYPE := "application/json"], ErrorDocument(code, message))
  }

  const UNSUPPORTED := JsonError(415, "invalid_content_type", "request content-type must be application/json")
  const BAD_PATH := JsonError(400, "invalid_path_parameters", "path parameters are invalid")
  const BAD_QUERY := JsonError(400, "invalid_query_parameters", "query parameters are invalid")
  const BAD_SCHEMA := JsonError(400, "invalid_request_body", "request body does not match the expected schema")
  const BAD_JSON := JsonError(400, "invalid_json_body", "request body is invalid")
  const UNREADABLE := JsonError(500, "internal_error", "failed to normalize error response")

  function FromPlaintext(status: nat, text: string): Response {
    if "Invalid URL:" <= text then BAD_PATH
    else if Contains(text, "Failed to deserialize query string") then BAD_QUERY
    else if Contains(text, "Content-Type") || Contains(text, "content-type") || status == 415 then UNSUPPORTED
    else if Contains(text, "Failed to deserialize the JSON body into the target type") then BAD_SCHEMA
    else BAD_JSON
  }

  /** `normalize_plaintext_error_responses`. A JSON 400 is rebuilt from its
      status, content type and body. */
  function Normalize(r: Response): Response {
    if !IsPlaintextError(r) && !IsJsonBadRequest(r) then r
    else if r.body.Broken? then UNREADABLE
    else if IsJsonBadRequest(r) then
      if r.body.code == Some("missing_json_content_type") then UNSUPPORTED
      else Response(r.status, map[CONTENT_TYPE := ContentType(r)], r.body)
    else FromPlaintext(r.status, r.body.text)
  }

  // ----- Properties -----

  /** The error documents the middleware writes itself. */
  predicate WrittenHere(r: Response) {
    r in {UNSUPPORTED, BAD_PATH, BAD_QUERY, BAD_SCHEMA, BAD_JSON, UNREADABLE}
  }

  lemma KindsExclude(r: Response)
    ensures !(IsPlaintextError(r) && IsJsonBadRequest(r))
  {
    if IsPlaintextError(r) {
      assert ContentType(r)[0] == "text/plain"[0] == 't';
      assert "application/json"[0] == 'a';
    }
  }

  lemma NotLegacy(code: string)
    requires code in {"invalid_path_parameters", "invalid_query_parameters", "invalid_request_body",
                      "invalid_json_body"}
    ensures code != "missing_json_content_type"
  {
    assert "missing_json_content_type"[0] == 'm';
    assert code[0] == 'i';
  }

  /** What the middleware writes it leaves alone. */
  lemma WrittenIsStable(r: Response)
    requires WrittenHere(r)
    ensures Normalize(r) == r && !IsPlaintextError(r)
  {
    assert ContentType(r) == "application/json";
    assert "application/json"[0] == 'a' && "text/plain"[0] == 't';
    assert !("text/plain" <= ContentType(r));
    if IsJsonBadRequest(r) {
      NotLegacy(r.body.code.value);
    }
  }

  lemma PlaintextIsReplaced(r: Response)
    requires IsPlaintextError(r)
    ensures WrittenHere(Normalize(r))
  {
    KindsExclude(r);
  }

  /** Normalising twice is normalising once. */
  lemma NormalizeIsIdempotent(r: Response)
    ensures Normalize(Normalize(r)) == Normalize(r)
  {
    if IsPlaintextError(r) {
      PlaintextIsReplaced(r);
      WrittenIsStable(Normalize(r));
    } else if IsJsonBadRequest(r) && (r.body.Broken? || r.body.code == Some("missing_json_content_type")) {
      WrittenIsStable(Normalize(r));
    } else if IsJsonBadRequest(r) {
      KindsExclude(r);
    }
  }

  /** Afterwards no 400, 415 or 422 is plain text. */
  lemma NoPlaintextErrorLeft(r: Response)
    ensures !IsPlaintextError(Normalize(r))
    ensures Normalize(r).status in {400, 415, 422} ==> !("text/plain" <= ContentType(Normalize(r)))
  {
    if IsPlaintextError(r) {
      PlaintextIsReplaced(r);
      WrittenIsStable(Normalize(r));
    } else if IsJsonBadRequest(r) && (r.body.Broken? || r.body.code == Some("missing_json_content_type")) {
      WrittenIsStable(Normalize(r));
    } else if IsJsonBadRequest(r) {
      KindsExclude(r);
      KindsExclude(Normalize(r));
    }
  }

  const CODES := ["invalid_path_parameters", "invalid_query_parameters", "invalid_content_type",
                  "invalid_request_body", "invalid_json_body"]

  lemma CodesDiffer()
    ensures forall i, j | 0 <= i < j < 5 :: CODES[i] != CODES[j]
  {
    assert CODES[0][8] == 'p' && CODES[1][8] == 'q' && CODES[2][8] == 'c' && CODES[3][8] == 'r' && CODES[4][8] == 'j';
  }

  /** The five faults a plain-text error may give evidence of; the last needs
      none. */
  predicate Evidence(i: nat, status: nat, text: string) {
    match i
    case 0 => "Invalid URL:" <= text
    case 1 => Contains(text, "Failed to deserialize query string")
    case 2 => status == 415 || Contains(text, "Content-Type") || Contains(text, "content-type")
    case 3 => Contains(text, "Failed to deserialize the JSON body into the target type")
    case 4 => true
    case _ => false
  }

  /** A readable plain-text error becomes exactly one of five JSON errors: it
      gives evidence of the error that is answered and of none before it. The
      status is 415 exactly for the content type, 400 for every other one. */
  lemma PlaintextBecomesOneJsonError(r: Response)
    requires IsPlaintextError(r) && r.body.Full?
    ensures var n := Normalize(r);
      && n.headers == map[CONTENT_TYPE := "application/json"] && n.body.Full?
      && (exists i | 0 <= i < 5 :: n.body.code == Some(CODES[i]))
      && (forall i | 0 <= i < 5 && n.body.code == Some(CODES[i]) ::
            && Evidence(i, r.status, r.body.text)
            && (forall j | 0 <= j < i :: !Evidence(j, r.status, r.body.text))
            && n.status == (if i == 2 then 415 else 400))
  {
    KindsExclude(r);
    CodesDiffer();
    var i := CascadeFinds(r.status, r.body.text);
    assert Normalize(r) == FromPlaintext(r.status, r.body.text);
  }

  /** The cascade answers the first error it has evidence of. */
  lemma CascadeFinds(status: nat, text: string) returns (i: nat)
    ensures i < 5 && FromPlaintext(status, text).body.Full? && FromPlaintext(status, text).body.code == Some(CODES[i])
    ensures Evidence(i, status, text) && forall j | 0 <= j < i :: !Evidence(j, status, text)
    ensures FromPlaintext(status, text).status == (if i == 2 then 415 else 400)
    ensures FromPlaintext(status, text).headers == map[CONTENT_TYPE := "application/json"]
  {
    i := if Evidence(0, status, text) then 0
         else if Evidence(1, status, text) then 1
         else if Evidence(2, status, text) then 2
         else if Evidence(3, status, text) then 3
         else 4;
  }

  /** The other errors that are rewritten: one that cannot be read becomes a 500,
      and a JSON 400 with the legacy code the content-type error. */
  lemma LegacyAndUnreadable(r: Response)
    requires (r.status in {400, 415, 422} && "text/plain" <= ContentType(r))
             || (r.status == 400 && "application/json" <= ContentType(r))
    requires r.body.Broken?
             || (r.status == 400 && "application/json" <= ContentType(r)
                 && r.body.code == Some("missing_json_content_type"))
    ensures var n := Normalize(r);
      && n.headers == map[CONTENT_TYPE := "application/json"] && n.body.Full?
      && n.status == (if r.body.Broken? then 500 else 415)
      && n.body.code == Some(if r.body.Broken? then "internal_error" else "invalid_content_type")
  {
    KindsExclude(r);
  }

  /** Everything else keeps its status, body and content type. A JSON 400
      without the legacy code loses its other headers, so it comes out as it
      went in exactly when it has none. */
  lemma OthersAreKept(r: Response)
    requires !IsPlaintextError(r)
    requires !(IsJsonBadRequest(r) && (r.body.Broken? || r.body.code == Some("missing_json_content_type")))
    ensures var n := Normalize(r);
      && n.status == r.status && n.body == r.body && ContentType(n) == ContentType(r)
      && (n == r <==> (IsJsonBadRequest(r) ==> r.headers.Keys == {CONTENT_TYPE}))
  {
    if IsJsonBadRequest(r) {
      assert CONTENT_TYPE in r.headers;
      var kept := map[CONTENT_TYPE := ContentType(r)];
      if r.headers.Keys == {CONTENT_TYPE} {
        assert r.headers == kept;
      } else {
        assert kept.Keys == {CONTENT_TYPE};
      }
    }
  }
}
