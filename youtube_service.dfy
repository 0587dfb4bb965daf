/**
 * The video-metadata lookup of services/youtubeService.ts: the lookup URL sent to the oEmbed
 * proxy, the ordered checks on its reply, and the catch block that passes on any error that
 * carries a message.
 */
module YoutubeService {
  import opened Types
  import opened Js

  /** `interface VideoDetails`. */
  datatype VideoDetails = VideoDetails(title: string, thumbnail: string)

  /** A JSON value as far as JavaScript truthiness is concerned (JSON has no NaN). */
  datatype JsonValue = Undefined | Null | Bool(b: bool) | Number(n: real) | Text(s: string) | Compound

  predicate Truthy(v: JsonValue) {
    match v
    case Undefined => false
    case Null => false
    case Bool(b) => b
    case Number(n) => n != 0.0
    case Text(s) => s != ""
    case Compound => true
  }

  /** The payload fields the service reads; a title or thumbnail that is absent or null is None. */
  datatype Payload = Payload(error: JsonValue, title: Option<string>, thumbnailUrl: Option<string>)

  /** What `response.json()` settles to. */
  datatype Body = Parsed(payload: Payload) | Unparsable(err: JsError)

  /** What `fetch(apiUrl)` settles to: a rejection (network failure) or a response. */
  datatype FetchReply = FetchFailed(err: JsError) | Response(status: nat, body: Body)

  // Long texts are written as concatenations of short pieces (the text is the same), which
  // keeps the verifier's work on the functions that mention them small.
  const LookupEndpoint := "https://noembed.com/embed?url="
  const NotFoundMessage := "Video not found. " + "Please check the " + "URL. The video " +
    "may be private, " + "age-restricted, " + "or deleted."
  const IncompleteMessage := "Could not " + "retrieve complete " + "details for this " +
    "video. Please " + "ensure it's a " + "valid YouTube " + "video URL."
  const UnexpectedMessage := "An unexpected " + "error occurred " + "while fetching " +
    "video details. " + "Please check your " + "internet " + "connection and " + "the URL."
  const StatusPrefix := "Could not connect " + "to the video " + "details service " + "(Status: "
  const StatusSuffix := "). Please try " + "again later."

  /** The message for a response that is not OK, with the status rendered in decimal. */
  function StatusMessage(status: nat): string {
    StatusPrefix + NatToString(status) + StatusSuffix
  }

  /** The status can be read back out of the message: different statuses, different messages. */
  lemma StatusMessageCarriesStatus(status: nat)
    ensures var m := StatusMessage(status);
      var digits := m[|StatusPrefix|..|m| - |StatusSuffix|];
      (forall k :: 0 <= k < |digits| ==> IsDigit(digits[k])) && ParseDecimal(digits) == status
  {
    var m := StatusMessage(status);
    assert m[|StatusPrefix|..|m| - |StatusSuffix|] == NatToString(status);
    NatToStringRoundTrip(status);
  }

  /** `response.ok`: a status in the range 200-299. */
  predicate IsOk(status: nat) {
    200 <= status <= 299
  }

  /** Characters `encodeURIComponent` leaves as they are. */
  predicate IsUnescaped(c: char) {
    'A' <= c <= 'Z' || 'a' <= c <= 'z' || '0' <= c <= '9' ||
    c == '-' || c == '_' || c == '.' || c == '!' || c == '~' || c == '*' || c == '\'' || c == '(' || c == ')'
  }

  function HexDigit(d: nat): (c: char)
    requires d < 16
    ensures IsUnescaped(c)
  {
    if d < 10 then ('0' as int + d) as char else ('A' as int + d - 10) as char
  }

  /** The UTF-8 encoding of one Unicode scalar value. */
  function Utf8(c: char): (bytes: seq<nat>)
    ensures 1 <= |bytes| <= 4
    ensures forall k :: 0 <= k < |bytes| ==> bytes[k] < 256
  {
    var n := c as int;
    if n < 0x80 then [n]
    else if n < 0x800 then [0xC0 + n / 64, 0x80 + n % 64]
    else if n < 0x10000 then [0xE0 + n / 4096, 0x80 + (n / 64) % 64, 0x80 + n % 64]
    else [0xF0 + n / 262144, 0x80 + (n / 4096) % 64, 0x80 + (n / 64) % 64, 0x80 + n % 64]
  }

  /** `%XY` for each byte, with upper-case hex digits. */
  function EscapeBytes(bytes: seq<nat>): (r: string)
    requires forall k :: 0 <= k < |bytes| ==> bytes[k] < 256
    ensures |r| == 3 * |bytes|
    ensures forall k :: 0 <= k < |r| ==> IsUnescaped(r[k]) || r[k] == '%'
  {
    if bytes == [] then []
    else ['%', HexDigit(bytes[0] / 16), HexDigit(bytes[0] % 16)] + EscapeBytes(bytes[1..])
  }

  function EncodeChar(c: char): string {
    if IsUnescaped(c) then [c] else EscapeBytes(Utf8(c))
  }

  /**
   * `encodeURIComponent`: the result holds only unescaped characters and `%`, so none of
   * `& = ? # /` or whitespace can reach the query string, and a string of unescaped characters
   * is passed unchanged.
   */
  function EncodeUriComponent(s: string): (r: string)
    ensures forall k :: 0 <= k < |r| ==> IsUnescaped(r[k]) || r[k] == '%'
    ensures (forall k :: 0 <= k < |s| ==> IsUnescaped(s[k])) ==> r == s
  {
    if s == [] then [] else EncodeChar(s[0]) + EncodeUriComponent(s[1..])
  }

  /** The URL the service fetches for a video URL. */
  function LookupUrl(url: string): (r: string)
    ensures |LookupEndpoint| <= |r| && r[..|LookupEndpoint|] == LookupEndpoint
    ensures r[|LookupEndpoint|..] == EncodeUriComponent(url)
  {
    LookupEndpoint + EncodeUriComponent(url)
  }

  predicate Present(v: Option<string>) {
    v.Some? && v.value != ""
  }

  /** The try block: the checks in source order; a failure carries the error thrown. */
  function Attempt(reply: FetchReply): Result<VideoDetails, JsError> {
    match reply
    case FetchFailed(e) => Failure(e)
    case Response(status, body) =>
      if !IsOk(status) then Failure(PlainError(StatusMessage(status)))
      else match body
        case Unparsable(e) => Failure(e)
        case Parsed(p) =>
          if Truthy(p.error) then Failure(PlainError(NotFoundMessage))
          else if !Present(p.title) || !Present(p.thumbnailUrl) then Failure(PlainError(IncompleteMessage))
          else Success(VideoDetails(p.title.value, p.thumbnailUrl.value))
  }

  /** The catch block: an error with a message is re-thrown with it, any other gets the fallback. */
  function Rethrow(e: JsError): (message: string)
    ensures message != ""
    ensures e.message != "" ==> message == e.message
    ensures e.message == "" ==> message == UnexpectedMessage
  {
    if e.message != "" then e.message else UnexpectedMessage
  }

  /**
   * `getYouTubeVideoDetails(url)`, given what `fetch(LookupUrl(url))` settled to: the details,
   * both non-empty, or the message of the error it throws, never empty.
   */
  function GetVideoDetails(reply: FetchReply): (r: Result<VideoDetails, string>)
    ensures r.Success? ==> r.value.title != "" && r.value.thumbnail != ""
    ensures r.Failure? ==> r.error != ""
  {
    match Attempt(reply)
    case Success(d) => Success(d)
    case Failure(e) => Failure(Rethrow(e))
  }

  /** A response that is not OK fails with its status, whatever its body would have been. */
  lemma StatusCheckedFirst(status: nat, body: Body)
    requires !IsOk(status)
    ensures GetVideoDetails(Response(status, body)) == Failure(StatusMessage(status))
  {
    assert StatusMessage(status) != "";
  }

  /** An OK response whose payload has a truthy `error` is "not found", whatever else it holds. */
  lemma ErrorFieldCheckedSecond(status: nat, p: Payload)
    requires IsOk(status) && Truthy(p.error)
    ensures GetVideoDetails(Response(status, Parsed(p))) == Failure(NotFoundMessage)
  {
  }

  /** Otherwise a missing or empty title or thumbnail is "incomplete". */
  lemma CompletenessCheckedThird(status: nat, p: Payload)
    requires IsOk(status) && !Truthy(p.error)
    requires !Present(p.title) || !Present(p.thumbnailUrl)
    ensures GetVideoDetails(Response(status, Parsed(p))) == Failure(IncompleteMessage)
  {
  }

  /** Success returns the title and thumbnail exactly as received, and only on a complete payload. */
  lemma SuccessExactlyWhenComplete(reply: FetchReply)
    ensures GetVideoDetails(reply).Success? <==>
      reply.Response? && IsOk(reply.status) && reply.body.Parsed? &&
      !Truthy(reply.body.payload.error) &&
      Present(reply.body.payload.title) && Present(reply.body.payload.thumbnailUrl)
    ensures GetVideoDetails(reply).Success? ==>
      GetVideoDetails(reply).value ==
        VideoDetails(reply.body.payload.title.value, reply.body.payload.thumbnailUrl.value)
  {
  }

  /**
   * Runtime failures (a rejected fetch, a body that is not JSON) pass their message through
   * unchanged; only a message-less one becomes the generic message.
   */
  lemma RuntimeErrorsPassThrough(e: JsError, status: nat)
    ensures GetVideoDetails(FetchFailed(e)) == Failure(Rethrow(e))
    ensures IsOk(status) ==> GetVideoDetails(Response(status, Unparsable(e))) == Failure(Rethrow(e))
  {
  }
}
