/**
 * The achievement web API client of src/main/achievement/api.ts: how a fetch
 * outcome becomes either the parsed result or one normalised error message.
 * The network is the oracle `FetchOutcome`; a JSON body is reduced to the
 * properties the code reads.
 */
module Api {
  import opened Wrappers
  import opened Text

  /** `errorCode.network`. */
  const NetworkErrorCode: int := 8
  /** `errorCode.unknown`. */
  const UnknownErrorCode: int := 9

  /** The `message` `new ApiError(...)` passes to `Error`. */
  const ApiErrorMessage: string := "API error occurred."

  /** `ApiErrorDetail`. */
  datatype ApiErrorDetail = ApiErrorDetail(code: int, message: string)

  /** The `errors` property of a body: missing, something other than an array, or an array of details. */
  datatype ErrorsField = Absent | NotArray | Items(items: seq<ApiErrorDetail>)

  /**
   * A parsed JSON body: `errors`, whether it has a `traceId` property, `title`,
   * the other string-valued properties, and `statusCode`.
   */
  datatype JsonBody = JsonBody(
    errors: ErrorsField,
    hasTraceId: bool,
    title: Option<string>,
    fields: map<string, string>,
    statusCode: Option<int>)

  /** What `fetch(request)` produced: a rejection, or a response whose body may or may not be JSON. */
  datatype FetchOutcome =
    | Thrown
    | Response(status: int, contentType: Option<string>, text: string, json: Option<JsonBody>)

  /** A request as `new Request(url, init)` builds it; the body is the object `JSON.stringify` is given. */
  datatype Request = Request(url: string, httpMethod: string, headers: seq<(string, string)>, body: Option<seq<(string, string)>>)

  /** `response.ok`. */
  predicate IsOk(status: int) {
    200 <= status <= 299
  }

  /** A body containing only the given error details. */
  function DetailsBody(details: seq<ApiErrorDetail>, statusCode: Option<int>): JsonBody {
    JsonBody(Items(details), false, None, map[], statusCode)
  }

  /** `${x}` of an optional string. */
  function TemplateText(s: Option<string>): string {
    match s
    case None => "undefined"
    case Some(t) => t
  }

  /** `Error Code: ${x.code}\nMessage: ${x.message}`. */
  function ItemText(d: ApiErrorDetail): string {
    "Error Code: " + IntToString(d.code) + "\nMessage: " + d.message
  }

  function ItemTexts(items: seq<ApiErrorDetail>): (r: seq<string>)
    ensures |r| == |items|
    ensures forall i :: 0 <= i < |items| ==> r[i] == ItemText(items[i])
  {
    if items == [] then [] else [ItemText(items[0])] + ItemTexts(items[1..])
  }

  /** A body in the framework shape: `errors` is no array, or a `traceId` is present. */
  predicate IsFrameworkShape(b: JsonBody) {
    !b.errors.Items? || b.hasTraceId
  }

  /** `handleApiError`: the message of the `Error` it returns. */
  function HandleApiError(b: JsonBody): (message: string)
    ensures IsFrameworkShape(b) ==> message == "Message: " + TemplateText(b.title)
    ensures !IsFrameworkShape(b) ==> message == ApiErrorMessage + "\n" + Join(ItemTexts(b.errors.items), "\n")
  {
    if IsFrameworkShape(b) then "Message: " + TemplateText(b.title)
    else ApiErrorMessage + "\n" + Join(ItemTexts(b.errors.items), "\n")
  }

  /** The two lines each detail contributes to a business-shape message. */
  function ItemLines(items: seq<ApiErrorDetail>): (r: seq<string>)
    ensures |r| == 2 * |items|
    ensures forall i :: 0 <= i < |items| ==>
      r[2 * i] == "Error Code: " + IntToString(items[i].code) && r[2 * i + 1] == "Message: " + items[i].message
  {
    if items == [] then []
    else ["Error Code: " + IntToString(items[0].code), "Message: " + items[0].message] + ItemLines(items[1..])
  }

  /** Joining after a first piece puts one separator between it and the rest. */
  lemma JoinCons(x: string, rest: seq<string>, sep: string)
    requires rest != []
    ensures Join([x] + rest, sep) == x + sep + Join(rest, sep)
  {
    assert ([x] + rest)[1..] == rest;
  }

  /** One detail's text is its code line, a line break and its message line. */
  lemma ItemTextIsTwoLines(d: ApiErrorDetail)
    ensures ItemText(d) == ("Error Code: " + IntToString(d.code)) + "\n" + ("Message: " + d.message)
  {
    var x := IntToString(d.code);
    assert "\nMessage: " == "\n" + "Message: ";
    assert "Error Code: " + x + "\nMessage: " + d.message == ("Error Code: " + x) + "\n" + ("Message: " + d.message);
  }

  /** Joining a two-line piece before equal joins is joining its two lines before them. */
  lemma JoinTwoLines(c: string, m: string, texts: seq<string>, lines: seq<string>)
    requires texts != [] && lines != [] && Join(texts, "\n") == Join(lines, "\n")
    ensures Join([c + "\n" + m] + texts, "\n") == Join([c, m] + lines, "\n")
  {
    var j := Join(lines, "\n");
    JoinCons(c + "\n" + m, texts, "\n");
    assert [c, m] + lines == [c] + ([m] + lines);
    JoinCons(c, [m] + lines, "\n");
    JoinCons(m, lines, "\n");
    assert Join([c, m] + lines, "\n") == c + "\n" + (m + "\n" + j);
  }

  /** The details' text, joined, is their lines joined: each detail is a code line and a message line. */
  lemma {:induction false} JoinItemTexts(items: seq<ApiErrorDetail>)
    requires items != []
    ensures Join(ItemTexts(items), "\n") == Join(ItemLines(items), "\n")
    decreases |items|
  {
    var c := "Error Code: " + IntToString(items[0].code);
    var m := "Message: " + items[0].message;
    ItemTextIsTwoLines(items[0]);
    var rest := items[1..];
    assert ItemLines(items) == [c, m] + ItemLines(rest);
    assert ItemTexts(items) == [c + "\n" + m] + ItemTexts(rest);
    if rest == [] {
      assert ItemTexts(items) == [c + "\n" + m];
      assert ItemLines(items) == [c, m];
      JoinCons(c, [m], "\n");
      assert [c] + [m] == [c, m];
    } else {
      JoinItemTexts(rest);
      JoinTwoLines(c, m, ItemTexts(rest), ItemLines(rest));
    }
  }

  /** Splitting pieces that hold no separator, once joined, gives them back. */
  lemma {:induction false} SplitJoin(parts: seq<string>, c: char)
    requires parts != []
    requires forall i, j :: 0 <= i < |parts| && 0 <= j < |parts[i]| ==> parts[i][j] != c
    ensures Split(Join(parts, [c]), {c}) == parts
    decreases |parts|
  {
    CountNone(parts[0], {c});
    if |parts| == 1 {
      SplitNoSeparator(parts[0], {c});
    } else {
      SplitJoin(parts[1..], c);
      SplitAppend(parts[0], c, Join(parts[1..], [c]), {c});
      assert [parts[0]] + parts[1..] == parts;
    }
  }

  /**
   * A business-shape message read line by line: the `ApiError` message, then a
   * code line and a message line per detail, in order (one empty line when there
   * are no details), provided no detail message holds a line break.
   */
  lemma BusinessMessageLines(b: JsonBody)
    requires !IsFrameworkShape(b)
    requires forall i, j :: 0 <= i < |b.errors.items| && 0 <= j < |b.errors.items[i].message| ==> b.errors.items[i].message[j] != '\n'
    ensures b.errors.items != [] ==> Split(HandleApiError(b), {'\n'}) == [ApiErrorMessage] + ItemLines(b.errors.items)
    ensures b.errors.items == [] ==> Split(HandleApiError(b), {'\n'}) == [ApiErrorMessage, ""]
  {
    var items := b.errors.items;
    if items == [] {
      SplitJoin([ApiErrorMessage, ""], '\n');
    } else {
      JoinItemTexts(items);
      JoinCons(ApiErrorMessage, ItemLines(items), "\n");
      var lines := [ApiErrorMessage] + ItemLines(items);
      ItemLinesNoBreak(items);
      SplitJoin(lines, '\n');
    }
  }

  lemma {:induction false} ItemLinesNoBreak(items: seq<ApiErrorDetail>)
    requires forall i, j :: 0 <= i < |items| && 0 <= j < |items[i].message| ==> items[i].message[j] != '\n'
    ensures forall i, j :: 0 <= i < |ItemLines(items)| && 0 <= j < |ItemLines(items)[i]| ==> ItemLines(items)[i][j] != '\n'
    decreases |items|
  {
    if items != [] {
      ItemLinesNoBreak(items[1..]);
      var c := "Error Code: " + IntToString(items[0].code);
      IntToStringNoBreak(items[0].code);
      assert forall j :: 0 <= j < |c| ==> c[j] != '\n' by {
        forall j | 0 <= j < |c|
          ensures c[j] != '\n'
        {
          if j >= 12 { assert c[j] == IntToString(items[0].code)[j - 12]; }
        }
      }
      var m := "Message: " + items[0].message;
      assert forall j :: 0 <= j < |m| ==> m[j] != '\n' by {
        forall j | 0 <= j < |m|
          ensures m[j] != '\n'
        {
          if j >= 9 { assert m[j] == items[0].message[j - 9]; }
        }
      }
      assert ItemLines(items) == [c, m] + ItemLines(items[1..]);
    }
  }

  lemma IntToStringNoBreak(i: int)
    ensures forall j :: 0 <= j < |IntToString(i)| ==> IntToString(i)[j] != '\n'
  {
    var n: nat := if i < 0 then -i else i;
    NatToStringDigits(n);
    if i < 0 {
      assert forall j :: 1 <= j < |IntToString(i)| ==> IntToString(i)[j] == NatToString(n)[j - 1];
    }
  }

  /** The text the unknown-error detail carries. */
  function UnknownErrorText(status: int, text: string): string {
    "Unknown error occurred. StatusCode = [ " + IntToString(status) + " ]" + "\n\n" + text
  }

  /**
   * `createApiError(response)` for a response that is not ok: the body it hands
   * to `handleApiError`, or the rejection of `response.json()` when a body with a
   * content type is not JSON.
   */
  function ErrorBody(status: int, contentType: Option<string>, text: string, json: Option<JsonBody>): (r: Result<JsonBody>)
    ensures contentType.None? ==> r == Ok(DetailsBody([ApiErrorDetail(UnknownErrorCode, UnknownErrorText(status, text))], Some(status)))
    ensures contentType.Some? && json.None? ==> r.Err?
    ensures contentType.Some? && json.Some? ==> r == Ok(json.value.(statusCode := Some(status)))
  {
    if contentType.None? then Ok(DetailsBody([ApiErrorDetail(UnknownErrorCode, UnknownErrorText(status, text))], Some(status)))
    else if json.None? then Err(InvalidJson)
    else Ok(json.value.(statusCode := Some(status)))
  }

  /** The rejection of `response.json()` on a body that is not JSON. */
  const InvalidJson: string := "invalid json response body"

  /**
   * `sendRequest(request)` given what `fetch` produced: the parsed result with
   * `statusCode` set, or the message of the error it throws.
   */
  function SendRequest(outcome: FetchOutcome): (r: Result<JsonBody>)
    ensures outcome.Thrown? ==> r == Err(HandleApiError(DetailsBody([ApiErrorDetail(NetworkErrorCode, "network error occurred.")], None)))
    ensures outcome.Response? && IsOk(outcome.status) && outcome.json.Some? ==>
      r == Ok(outcome.json.value.(statusCode := Some(outcome.status)))
    ensures outcome.Response? && IsOk(outcome.status) && outcome.json.None? ==> r == Err(InvalidJson)
    ensures outcome.Response? && !IsOk(outcome.status) ==>
      match ErrorBody(outcome.status, outcome.contentType, outcome.text, outcome.json)
      case Ok(b) => r == Err(HandleApiError(b))
      case Err(e) => r == Err(e)
  {
    match outcome
    case Thrown => Err(HandleApiError(DetailsBody([ApiErrorDetail(NetworkErrorCode, "network error occurred.")], None)))
    case Response(status, contentType, text, json) =>
      if IsOk(status) then
        if json.None? then Err(InvalidJson) else Ok(json.value.(statusCode := Some(status)))
      else
        match ErrorBody(status, contentType, text, json)
        case Ok(b) => Err(HandleApiError(b))
        case Err(e) => Err(e)
  }

  /** A rejected fetch becomes the single network detail, code 8. */
  lemma NetworkErrorMessage()
    ensures SendRequest(Thrown) == Err(ApiErrorMessage + "\n" + "Error Code: " + "8" + "\nMessage: " + "network error occurred.")
  {
    var d := ApiErrorDetail(NetworkErrorCode, "network error occurred.");
    SingleDetailMessage(d, None);
    assert IntToString(8) == "8";
  }

  /** A failure without content type becomes the single unknown detail, code 9, with status and body text. */
  lemma UnknownErrorMessage(status: int, text: string)
    requires !IsOk(status)
    ensures SendRequest(Response(status, None, text, None)) ==
      Err(ApiErrorMessage + "\n" + "Error Code: " + "9" + "\nMessage: " + UnknownErrorText(status, text))
  {
    var d := ApiErrorDetail(UnknownErrorCode, UnknownErrorText(status, text));
    SingleDetailMessage(d, Some(status));
    assert IntToString(9) == "9";
  }

  lemma SingleDetailMessage(d: ApiErrorDetail, statusCode: Option<int>)
    ensures HandleApiError(DetailsBody([d], statusCode)) == ApiErrorMessage + "\n" + ItemText(d)
  {
    assert ItemTexts([d]) == [ItemText(d)];
  }

  /** The `statusCode` the code stores on an error body never reaches the message. */
  lemma StatusCodeNotInMessage(b: JsonBody, s: Option<int>)
    ensures HandleApiError(b.(statusCode := s)) == HandleApiError(b)
  {
  }

  /** Every error message starts with `"Message: "` (framework shape) or with the `ApiError` message. */
  lemma ErrorMessagePrefix(outcome: FetchOutcome)
    requires SendRequest(outcome).Err? && SendRequest(outcome).message != InvalidJson
    ensures var m := SendRequest(outcome).message;
      (|m| >= 9 && m[..9] == "Message: ") || (|m| > |ApiErrorMessage| && m[..|ApiErrorMessage| + 1] == ApiErrorMessage + "\n")
  {
    var m := SendRequest(outcome).message;
    match outcome
    case Thrown =>
      assert m[..|ApiErrorMessage| + 1] == ApiErrorMessage + "\n";
    case Response(status, contentType, text, json) =>
      var b := ErrorBody(status, contentType, text, json).value;
      if IsFrameworkShape(b) {
        assert m[..9] == "Message: ";
      } else {
        assert m[..|ApiErrorMessage| + 1] == ApiErrorMessage + "\n";
      }
  }

  /** `token ? \`Bearer ${token}\` : ''`: a token is truthy when it is a non-empty string. */
  function AuthorizationHeader(token: Option<string>): (h: string)
    ensures token.None? || token.value == "" <==> h == ""
    ensures token.Some? && token.value != "" ==> |h| > 7 && h[..7] == "Bearer " && h[7..] == token.value
  {
    if token.Some? && token.value != "" then "Bearer " + token.value else ""
  }
}
