/** The router login of `cmd/wr11s-router-exporter.go`: check the
    credentials, encode them, post the login form, and read the router's
    verdict from the JSON reply. The HTTP exchange is a parameter of the
    model: a function from the request sent to the response received. */
module RouterLogin {
  import opened Wrappers
  import Utf8
  import Base64Url
  import Decimal

  /** Path of the login handler, appended to the base URL. */
  const LoginPath: string := "/goform/goform_set_cmd_process"

  /** The closing words of the credentials and rejection messages. */
  const Consequence: string := "not all data will be available to the exporter without loging in"

  const CredentialsMissingMessage: string := "username or password not provided," + Consequence
  const RequestPrefix: string := "error making login request: "
  const ReadPrefix: string := "error reading response body: "
  const ParsePrefix: string := "error parsing JSON: "
  const RejectedPrefix: string := "error loging in with result "
  const RejectedSuffix: string := ", " + Consequence

  /** The decoded reply: `result` is carried in JSON as a quoted integer. */
  datatype LoginState = LoginState(result: int)

  /** The `result` member of a JSON object, as the decoder meets it: absent,
      the literal `null`, a JSON string (its contents after unquoting), or
      any other unquoted value. */
  datatype ResultMember = Absent | Null | Text(text: string) | Unquoted

  /** A response body as the JSON decoder sees it: not well-formed JSON, a
      well-formed value of the wrong type, the literal `null`, or an object
      whose `result` member is as given. The two failing shapes carry the
      decoder's own message. */
  datatype JsonBody =
    | Malformed(detail: string)
    | NotAnObject(detail: string)
    | NullDocument
    | Object(result: ResultMember)

  /** Why decoding the reply failed. */
  datatype JsonError =
    | Syntax(detail: string)
    | TypeMismatch(detail: string)
    | UnquotedValue
    | StringTagMisuse(item: string)
    | StringValue
    | NotAnInt(item: string)
  {
    function Text(): string {
      match this
      case Syntax(d) => d
      case TypeMismatch(d) => d
      case UnquotedValue =>
        "json: invalid use of ,string struct tag, trying to unmarshal unquoted value into int"
      case StringTagMisuse(item) =>
        "json: invalid use of ,string struct tag, trying to unmarshal \"" + item + "\" into int"
      case StringValue =>
        "json: cannot unmarshal string into Go struct field LoginState.result of type int"
      case NotAnInt(item) =>
        "json: cannot unmarshal number " + item + " into Go struct field LoginState.result of type int"
    }
  }

  predicate IsHexDigit(c: char) {
    '0' <= c <= '9' || 'a' <= c <= 'f' || 'A' <= c <= 'F'
  }

  /** The characters between the quotes of a string as Go's `encoding/json`
      unquotes it: no bare quote or control character, and only the escapes
      `\" \\ \/ \' \b \f \n \r \t` and `\u` with four hex digits. Go
      accepts `\'`, which section 7 of RFC 8259 does not list. */
  predicate IsStringBody(s: string)
    decreases |s|
  {
    if s == [] then true
    else if s[0] == '"' || s[0] < ' ' then false
    else if s[0] != '\\' then IsStringBody(s[1..])
    else if |s| < 2 then false
    else if s[1] in "\"\\/'bfnrt" then IsStringBody(s[2..])
    else (s[1] == 'u' && |s| >= 6 &&
          IsHexDigit(s[2]) && IsHexDigit(s[3]) && IsHexDigit(s[4]) && IsHexDigit(s[5]) &&
          IsStringBody(s[6..]))
  }

  /** A complete JSON string literal, quotes included. */
  predicate IsJsonString(s: string) {
    |s| >= 2 && s[0] == '"' && s[|s| - 1] == '"' && IsStringBody(s[1..|s| - 1])
  }

  /** Text that the decoder reads as a number: it starts with `-` or a digit. */
  predicate StartsNumber(s: string) {
    |s| > 0 && (s[0] == '-' || Decimal.IsDigitChar(s[0]))
  }

  /** The `,string` option on an `int` field, applied to the contents of the
      quoted value: the text `null` leaves the field unset; a JSON string
      literal is a string, which an `int` cannot hold; text read as a number
      must be a decimal 64-bit integer; anything else misuses the option. */
  function DecodeQuotedInt(text: string): (r: Result<Option<int>, JsonError>)
    ensures r == Ok(None) <==> text == "null"
    ensures IsJsonString(text) ==> r == Err(StringValue)
    ensures StartsNumber(text) && Decimal.ParseInt64(text).Some? ==> r == Ok(Decimal.ParseInt64(text))
    ensures StartsNumber(text) && Decimal.ParseInt64(text).None? ==> r == Err(NotAnInt(text))
    ensures text != "null" && !IsJsonString(text) && !StartsNumber(text) ==> r == Err(StringTagMisuse(text))
    ensures r.Ok? && r.value.Some? ==> Decimal.MinInt64 <= r.value.value <= Decimal.MaxInt64 && text[0] != '+'
  {
    if text == "null" then Ok(None)
    else if IsJsonString(text) then Err(StringValue)
    else if !StartsNumber(text) then Err(StringTagMisuse(text))
    else match Decimal.ParseInt64(text)
      case Some(n) => Ok(Some(n))
      case None => Err(NotAnInt(text))
  }

  /** `json.Unmarshal` of a body into a zero `LoginState`: a field the body
      does not set stays 0. */
  function DecodeLoginState(body: JsonBody): (r: Result<LoginState, JsonError>)
    ensures r.Ok? ==> Decimal.MinInt64 <= r.value.result <= Decimal.MaxInt64
    ensures body.Malformed? ==> r == Err(Syntax(body.detail))
    ensures body.NotAnObject? ==> r == Err(TypeMismatch(body.detail))
    ensures body == NullDocument || body == Object(Absent) || body == Object(Null) ==> r == Ok(LoginState(0))
    ensures body == Object(Unquoted) ==> r == Err(UnquotedValue)
    ensures body.Object? && body.result.Text? ==>
      var d := DecodeQuotedInt(body.result.text);
      (r.Ok? <==> d.Ok?) &&
      (r.Ok? ==> r.value.result == d.value.GetOr(0)) &&
      (r.Err? ==> r.error == d.error)
  {
    match body
    case Malformed(d) => Err(Syntax(d))
    case NotAnObject(d) => Err(TypeMismatch(d))
    case NullDocument => Ok(LoginState(0))
    case Object(m) =>
      match m
      case Absent => Ok(LoginState(0))
      case Null => Ok(LoginState(0))
      case Unquoted => Err(UnquotedValue)
      case Text(t) =>
        match DecodeQuotedInt(t)
        case Err(e) => Err(e)
        case Ok(v) => Ok(LoginState(v.GetOr(0)))
  }

  /** Why a login did not succeed. */
  datatype LoginError =
    | CredentialsMissing
    | RequestFailed(cause: string)
    | ReadFailed(cause: string)
    | ParseFailed(error: JsonError)
    | Rejected(code: int)
  {
    /** The text of the error `login` returns: a head that differs for each
        kind (its first and seventh characters tell the kinds apart),
        followed by the cause, the decoder's message or the code. */
    function Message(): (m: string)
      ensures |m| > 6 && (m[0], m[6]) == Tag(this)
      ensures RequestFailed? || ReadFailed? ==> |cause| < |m| && m[|m| - |cause|..] == cause
      ensures ParseFailed? ==> |error.Text()| < |m| && m[|m| - |error.Text()|..] == error.Text()
    {
      PrefixChars(HeadOf(this), TailOf(this));
      HeadOf(this) + TailOf(this)
    }
  }

  /** The first and the seventh character of each kind of message. */
  function Tag(e: LoginError): (char, char) {
    match e
    case CredentialsMissing => ('u', 'm')
    case RequestFailed(_) => ('e', 'm')
    case ReadFailed(_) => ('e', 'r')
    case ParseFailed(_) => ('e', 'p')
    case Rejected(_) => ('e', 'l')
  }

  /** Each message as a fixed head of more than six characters and the rest. */
  function HeadOf(e: LoginError): (p: string)
    ensures |p| > 6 && (p[0], p[6]) == Tag(e)
  {
    match e
    case CredentialsMissing => "username or password not provided,"
    case RequestFailed(_) => RequestPrefix
    case ReadFailed(_) => ReadPrefix
    case ParseFailed(_) => ParsePrefix
    case Rejected(_) => RejectedPrefix
  }

  function TailOf(e: LoginError): string {
    match e
    case CredentialsMissing => Consequence
    case RequestFailed(c) => c
    case ReadFailed(c) => c
    case ParseFailed(j) => j.Text()
    case Rejected(code) => Decimal.FormatInt(code) + RejectedSuffix
  }

  lemma PrefixChars(p: string, rest: string)
    requires |p| > 6
    ensures |p + rest| > 6 && (p + rest)[0] == p[0] && (p + rest)[6] == p[6]
  {
  }

  /** `url.Values`: each key maps to its list of values. */
  type Form = map<string, seq<string>>

  /** `url.Values.Set`: the key now has exactly the one value. */
  function Set(form: Form, key: string, value: string): (r: Form)
    ensures r.Keys == form.Keys + {key}
    ensures r[key] == [value]
    ensures forall k :: k in form && k != key ==> r[k] == form[k]
  {
    form[key := [value]]
  }

  /** `base64.URLEncoding.EncodeToString([]byte(s))`: the UTF-8 bytes of
      the credential in padded URL-safe base64. */
  function EncodeCredential(s: string): (r: string)
    ensures Base64Url.Decode(r) == Some(Utf8.Encode(s))
    ensures |r| == 4 * ((|Utf8.Encode(s)| + 2) / 3)
    ensures forall c :: c in r ==> Base64Url.IsDigit(c) || c == Base64Url.Pad
  {
    Base64Url.DecodeEncode(Utf8.Encode(s));
    Base64Url.EncodeIsUrlSafe(Utf8.Encode(s));
    Base64Url.Encode(Utf8.Encode(s))
  }

  /** The login form: a flag, the handler id and the encoded credentials. */
  function LoginForm(username: string, password: string): (f: Form)
    ensures f.Keys == {"isTest", "goformId", "username", "password"}
    ensures f["isTest"] == ["false"] && f["goformId"] == ["LOGIN"]
    ensures f["username"] == [EncodeCredential(username)]
    ensures f["password"] == [EncodeCredential(password)]
  {
    var f0: Form := map[];
    var f1 := Set(f0, "isTest", "false");
    var f2 := Set(f1, "goformId", "LOGIN");
    var f3 := Set(f2, "username", EncodeCredential(username));
    Set(f3, "password", EncodeCredential(password))
  }

  /** The URL of the login handler under `baseUrl`. */
  function LoginUrl(baseUrl: string): (u: string)
    ensures |u| == |baseUrl| + |LoginPath|
    ensures u[..|baseUrl|] == baseUrl && u[|baseUrl|..] == LoginPath
  {
    baseUrl + LoginPath
  }

  /** A form POST. */
  datatype Request = Request(url: string, form: Form)

  /** What the POST yields: the request failed, reading the body failed, or
      the body arrived. */
  datatype Response =
    | TransportError(cause: string)
    | ReadError(cause: string)
    | Body(json: JsonBody)

  /** The part of `login` after the request: map the response to its
      outcome. */
  function Interpret(resp: Response): (o: Outcome<LoginError>)
    ensures resp.TransportError? ==> o == Fail(RequestFailed(resp.cause))
    ensures resp.ReadError? ==> o == Fail(ReadFailed(resp.cause))
    ensures resp.Body? ==> (o == Pass <==> DecodeLoginState(resp.json) == Ok(LoginState(0)))
    ensures resp.Body? && DecodeLoginState(resp.json).Err? ==>
      o == Fail(ParseFailed(DecodeLoginState(resp.json).error))
    ensures resp.Body? && DecodeLoginState(resp.json).Ok? && DecodeLoginState(resp.json).value.result != 0 ==>
      o == Fail(Rejected(DecodeLoginState(resp.json).value.result))
    ensures o.Fail? && o.error.Rejected? ==> o.error.code != 0
    ensures o.Fail? ==> !o.error.CredentialsMissing?
  {
    match resp
    case TransportError(c) => Fail(RequestFailed(c))
    case ReadError(c) => Fail(ReadFailed(c))
    case Body(json) =>
      match DecodeLoginState(json)
      case Err(e) => Fail(ParseFailed(e))
      case Ok(state) => if state.result == 0 then Pass else Fail(Rejected(state.result))
  }

  /** One call of `login`: the request sent, if any, and the outcome. */
  datatype Attempt = Attempt(sent: Option<Request>, outcome: Outcome<LoginError>)

  /** `login(baseUrl, username, password)`, with `post` standing for the
      HTTP exchange. */
  function Login(baseUrl: string, username: string, password: string, post: Request -> Response): (a: Attempt)
    ensures a.sent.None? <==> username == "" || password == ""
    ensures a.sent.None? ==> a.outcome == Fail(CredentialsMissing)
    ensures a.sent.Some? ==> a.sent.value.url == LoginUrl(baseUrl)
    ensures a.sent.Some? ==> a.sent.value.form == LoginForm(username, password)
    ensures a.sent.Some? ==> a.outcome == Interpret(post(a.sent.value))
  {
    if username == "" || password == "" then Attempt(None, Fail(CredentialsMissing))
    else
      var req := Request(LoginUrl(baseUrl), LoginForm(username, password));
      Attempt(Some(req), Interpret(post(req)))
  }

  /** Different credentials give different forms, and equal ones equal
      forms: the form determines the credentials. */
  lemma LoginFormInjective(u1: string, p1: string, u2: string, p2: string)
    ensures LoginForm(u1, p1) == LoginForm(u2, p2) <==> u1 == u2 && p1 == p2
  {
    if LoginForm(u1, p1) == LoginForm(u2, p2) {
      assert EncodeCredential(u1) == LoginForm(u1, p1)["username"][0];
      assert EncodeCredential(p1) == LoginForm(u1, p1)["password"][0];
      Base64Url.EncodeInjective(Utf8.Encode(u1), Utf8.Encode(u2));
      Utf8.EncodeInjective(u1, u2);
      Base64Url.EncodeInjective(Utf8.Encode(p1), Utf8.Encode(p2));
      Utf8.EncodeInjective(p1, p2);
    }
  }

  /** A reply carrying any 64-bit result as a quoted decimal is decoded to
      it: 0 is a successful login and every other code a rejection with
      that code. */
  lemma ResultCodeRoundTrip(n: int)
    requires Decimal.MinInt64 <= n <= Decimal.MaxInt64
    ensures DecodeLoginState(Object(Text(Decimal.FormatInt(n)))) == Ok(LoginState(n))
    ensures Interpret(Body(Object(Text(Decimal.FormatInt(n))))) == if n == 0 then Pass else Fail(Rejected(n))
  {
    var t := Decimal.FormatInt(n);
    Decimal.FormatParseRoundTrip(n);
    assert t[0] == '-' || Decimal.IsDigitChar(t[0]);
    assert t != "null" by {
      assert "null"[0] == 'n';
    }
  }

  /** A reply that does not set `result` (no such member, a `null` member,
      the quoted text `null`, or a `null` document) leaves it at 0 and so
      counts as a successful login. */
  lemma UnsetResultCountsAsSuccess(resp: Response)
    requires resp.Body?
    requires resp.json.NullDocument? ||
      (resp.json.Object? && (resp.json.result.Absent? || resp.json.result.Null? || resp.json.result == Text("null")))
    ensures Interpret(resp) == Pass
  {
  }

  /** The rejection message shows the code in decimal between a fixed
      prefix and suffix, so the code can be read back from it. */
  lemma RejectedMessageCarriesCode(code: int)
    requires Decimal.MinInt64 <= code <= Decimal.MaxInt64
    ensures var m := Rejected(code).Message();
      |RejectedPrefix| + |RejectedSuffix| < |m| &&
      m[..|RejectedPrefix|] == RejectedPrefix &&
      m[|m| - |RejectedSuffix|..] == RejectedSuffix &&
      Decimal.ParseInt64(m[|RejectedPrefix|..|m| - |RejectedSuffix|]) == Some(code)
  {
    var m := Rejected(code).Message();
    var t := Decimal.FormatInt(code);
    assert m == RejectedPrefix + t + RejectedSuffix;
    assert m[|RejectedPrefix|..|m| - |RejectedSuffix|] == t;
    Decimal.FormatParseRoundTrip(code);
  }

  /** The message tells the kinds of failure apart, and for every kind but
      a JSON failure it determines the error entirely. */
  lemma MessageIdentifiesError(e1: LoginError, e2: LoginError)
    requires e1.Message() == e2.Message()
    requires e1.Rejected? ==> Decimal.MinInt64 <= e1.code <= Decimal.MaxInt64
    requires e2.Rejected? ==> Decimal.MinInt64 <= e2.code <= Decimal.MaxInt64
    ensures e1.ParseFailed? <==> e2.ParseFailed?
    ensures !e1.ParseFailed? ==> e1 == e2
  {
    var m := e1.Message();
    SameTagSameKind(e1, e2);
    var h := HeadOf(e1);
    assert m == h + TailOf(e1) && m == h + TailOf(e2);
    assert TailOf(e1) == m[|h|..] == TailOf(e2);
    if e1.Rejected? {
      var t1, t2 := Decimal.FormatInt(e1.code), Decimal.FormatInt(e2.code);
      var tail := TailOf(e1);
      assert tail == t1 + RejectedSuffix && tail == t2 + RejectedSuffix;
      assert t1 == tail[..|tail| - |RejectedSuffix|] == t2;
      Decimal.FormatIntInjective(e1.code, e2.code);
    }
  }

  /** Messages with the same two tag characters come from the same kind of
      error, which has the same head. */
  lemma SameTagSameKind(e1: LoginError, e2: LoginError)
    requires Tag(e1) == Tag(e2)
    ensures HeadOf(e1) == HeadOf(e2)
    ensures e1.CredentialsMissing? == e2.CredentialsMissing? && e1.RequestFailed? == e2.RequestFailed?
    ensures e1.ReadFailed? == e2.ReadFailed? && e1.ParseFailed? == e2.ParseFailed? && e1.Rejected? == e2.Rejected?
  {
  }

  /** Replies that decode: a quoted 0 is success, a quoted nonzero code is
      a rejection naming it. */
  lemma ReplyExamples()
    ensures Interpret(Body(Object(Text("0")))) == Pass
    ensures Interpret(Body(Object(Text("1")))) == Fail(Rejected(1))
    ensures Interpret(Body(Object(Text("-1")))) == Fail(Rejected(-1))
  {
    ResultCodeRoundTrip(0);
    ResultCodeRoundTrip(1);
    ResultCodeRoundTrip(-1);
  }

  /** Replies that fail to decode: a body that is not JSON, an unquoted
      result, quoted text that is not a 64-bit decimal, and text that the
      decoder does not read as a number. */
  lemma MalformedReplyExamples()
    ensures Interpret(Body(Malformed("invalid character 'o' in literal null (expecting 'u')"))) ==
      Fail(ParseFailed(Syntax("invalid character 'o' in literal null (expecting 'u')")))
    ensures Interpret(Body(Object(Unquoted))) == Fail(ParseFailed(UnquotedValue))
    ensures Interpret(Body(Object(Text("3x")))) == Fail(ParseFailed(NotAnInt("3x")))
    ensures Interpret(Body(Object(Text("+3")))) == Fail(ParseFailed(StringTagMisuse("+3")))
  {
    assert DecodeQuotedInt("3x") == Err(NotAnInt("3x")) by {
      assert StartsNumber("3x");
      assert Decimal.ParseInt64("3x").None?;
    }
    assert DecodeQuotedInt("+3") == Err(StringTagMisuse("+3")) by {
      assert !StartsNumber("+3") && !IsJsonString("+3");
    }
  }

  /** A quoted result that is itself a JSON string, here `"5"` and one with
      the escape `\'`, is a string, which the `int` field cannot hold. */
  lemma StringReplyExamples()
    ensures Interpret(Body(Object(Text("\"5\"")))) == Fail(ParseFailed(StringValue))
    ensures Interpret(Body(Object(Text("\"\\'\"")))) == Fail(ParseFailed(StringValue))
  {
    assert DecodeQuotedInt("\"5\"") == Err(StringValue) by {
      assert "\"5\""[1..2] == "5";
      assert IsStringBody("5"[1..]);
    }
    assert DecodeQuotedInt("\"\\'\"") == Err(StringValue) by {
      assert "\"\\'\""[1..3] == "\\'";
      assert IsStringBody("\\'"[2..]);
    }
  }

  /** The user name of the test configuration, `testuser`, whose UTF-8
      bytes are its ASCII codes, as it appears in the login form. */
  lemma CredentialExample()
    ensures Base64Url.Encode([116, 101, 115, 116, 117, 115, 101, 114]) == "dGVzdHVzZXI="
  {
    var b: seq<Utf8.byte> := [116, 101, 115, 116, 117, 115, 101, 114];
    assert Base64Url.Quantum(116, 101, 115) == "dGVz";
    assert Base64Url.Quantum(116, 117, 115) == "dHVz";
    assert Base64Url.FinalQuantum([101, 114]) == "ZXI=";
    assert b[3..][3..] == [101, 114];
  }
}
