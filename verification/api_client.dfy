/**
 * The HTTP action client `apiCall` of the dashboard: how the request options
 * are built from a method and optional body data, and how the response is
 * normalised into a returned `true` or a thrown error.  `fetch` itself, the
 * base URL and `response.text()` are abstracted: the model receives what the
 * network produced as a `FetchOutcome`.
 */
module ApiClient {
  import opened Optional
  import Decimal

  datatype HttpMethod = GET | POST

  /** A value a body-literal member may hold: `undefined`, `null`, a number or a string. */
  datatype JsValue = Undefined | Null | Num(n: int) | Str(s: string)

  /** An object literal such as `{ numero: ..., codemp: ... }`, members in source order. */
  type BodyData = seq<(string, JsValue)>

  /** A JSON value as `JSON.stringify` writes it (there is no JSON `undefined`). */
  datatype JsonValue = JNull | JNum(n: int) | JStr(s: string)

  /** A serialised JSON object: its members in order. */
  type Json = seq<(string, JsonValue)>

  /** The literal value a JSON value was written from. */
  function Embed(v: JsonValue): (u: JsValue)
    ensures u != Undefined
  {
    match v
    case JNull => Null
    case JNum(n) => Num(n)
    case JStr(s) => Str(s)
  }

  /**
   * `JSON.stringify` of an object literal: members holding `undefined` are
   * dropped; every other member keeps its key, its value and its place.
   */
  function Stringify(data: BodyData): (j: Json)
    ensures |j| <= |data|
    ensures (forall i :: 0 <= i < |data| ==> data[i].1 != Undefined) ==> |j| == |data|
    ensures (forall i :: 0 <= i < |data| ==> data[i].1 != Undefined) ==>
      forall i :: 0 <= i < |j| ==> j[i].0 == data[i].0 && Embed(j[i].1) == data[i].1
    ensures (forall i :: 0 <= i < |data| ==> data[i].1 == Undefined) ==> j == []
  {
    if |data| == 0 then []
    else
      var (k, u) := data[0];
      var rest := Stringify(data[1..]);
      match u
      case Undefined => rest
      case Null => [(k, JNull)] + rest
      case Num(n) => [(k, JNum(n))] + rest
      case Str(s) => [(k, JStr(s))] + rest
  }

  /** A member is in the JSON text exactly when the literal held it with a defined value. */
  lemma {:induction false} StringifyMembers(data: BodyData, k: string, v: JsonValue)
    ensures (k, v) in Stringify(data) <==> (k, Embed(v)) in data
    decreases |data|
  {
    if |data| > 0 {
      StringifyMembers(data[1..], k, v);
      assert data == [data[0]] + data[1..];
      assert (k, Embed(v)) in data <==> data[0] == (k, Embed(v)) || (k, Embed(v)) in data[1..];
    }
  }

  /** The `RequestInit` handed to `fetch`. */
  datatype RequestInit = RequestInit(verb: HttpMethod, headers: seq<(string, string)>, body: Option<Json>)

  const ContentTypeJson: (string, string) := ("Content-Type", "application/json")

  /**
   * The options `apiCall` builds: the JSON content type always, and a body
   * only for a POST that was given body data.
   */
  function BuildInit(verb: HttpMethod, bodyData: Option<BodyData>): (r: RequestInit)
    ensures r.verb == verb
    ensures r.headers == [ContentTypeJson]
    ensures r.body.Some? <==> verb == POST && bodyData.Some?
    ensures r.body.Some? ==> r.body.value == Stringify(bodyData.value)
  {
    var init := RequestInit(verb, [ContentTypeJson], None);
    if verb == POST && bodyData.Some? then init.(body := Some(Stringify(bodyData.value))) else init
  }

  /** What `fetch` can answer: an HTTP response (any status) or a rejection. */
  datatype Response = Response(ok: bool, status: nat, statusText: string, text: string)

  /** A thrown value: an `Error` instance with its message, or anything else. */
  datatype Thrown = Error(message: string) | NonError

  datatype FetchOutcome = Responded(response: Response) | Rejected(reason: Thrown)

  /** How the awaited `apiCall(...)` settles: it returns a boolean or throws. */
  datatype CallResult = Returned(value: bool) | Threw(reason: Thrown)

  const ErrorPrefix: string := "Erro na API: "

  /** The message of the error thrown for a non-ok response. */
  function ErrorMessage(r: Response): string {
    ErrorPrefix + Decimal.NatToString(r.status) + " " + r.statusText + " - " + r.text
  }

  /** `sub` occurs in `s` starting at index `i`. */
  predicate OccursAt(sub: string, s: string, i: nat) {
    i + |sub| <= |s| && s[i..i + |sub|] == sub
  }

  /** `sub` occurs somewhere in `s` (JavaScript's `s.includes(sub)`). */
  predicate Infix(sub: string, s: string) {
    exists i: nat | i <= |s| :: OccursAt(sub, s, i)
  }

  lemma InfixOfSelf(s: string)
    ensures Infix(s, s)
  {
    assert OccursAt(s, s, 0);
  }

  /** An occurrence in `a` is still one after appending `b`. */
  lemma InfixExtendRight(sub: string, a: string, b: string)
    requires Infix(sub, a)
    ensures Infix(sub, a + b)
  {
    var i: nat :| i <= |a| && OccursAt(sub, a, i);
    assert (a + b)[i..i + |sub|] == a[i..i + |sub|];
    assert OccursAt(sub, a + b, i);
  }

  /** An occurrence in `b` is still one after prepending `a`, shifted by `|a|`. */
  lemma InfixExtendLeft(sub: string, a: string, b: string)
    requires Infix(sub, b)
    ensures Infix(sub, a + b)
  {
    var i: nat :| i <= |b| && OccursAt(sub, b, i);
    assert (a + b)[|a| + i..|a| + i + |sub|] == b[i..i + |sub|];
    assert OccursAt(sub, a + b, |a| + i);
  }

  /** The error message names the status code, the status text and the response text. */
  lemma MessageMentions(r: Response)
    ensures Infix(Decimal.NatToString(r.status), ErrorMessage(r))
    ensures Infix(r.statusText, ErrorMessage(r))
    ensures Infix(r.text, ErrorMessage(r))
  {
    var code := Decimal.NatToString(r.status);
    var sep := " - ";
    InfixOfSelf(code);
    InfixExtendLeft(code, ErrorPrefix, code);
    InfixExtendRight(code, ErrorPrefix + code, " ");
    InfixExtendRight(code, ErrorPrefix + code + " ", r.statusText);
    InfixExtendRight(code, ErrorPrefix + code + " " + r.statusText, sep);
    InfixExtendRight(code, ErrorPrefix + code + " " + r.statusText + sep, r.text);
    InfixOfSelf(r.statusText);
    InfixExtendLeft(r.statusText, ErrorPrefix + code + " ", r.statusText);
    InfixExtendRight(r.statusText, ErrorPrefix + code + " " + r.statusText, sep);
    InfixExtendRight(r.statusText, ErrorPrefix + code + " " + r.statusText + sep, r.text);
    InfixOfSelf(r.text);
    InfixExtendLeft(r.text, ErrorPrefix + code + " " + r.statusText + sep, r.text);
  }

  /**
   * Response normalisation: a non-ok response throws an `Error` whose message
   * carries the status code, status text and body text; an ok response
   * returns `true`; a rejected `fetch` propagates unchanged.
   */
  function Normalize(f: FetchOutcome): (c: CallResult)
    ensures c.Returned? ==> c.value
    ensures f.Responded? ==> (c.Returned? <==> f.response.ok)
    ensures f.Rejected? ==> c == Threw(f.reason)
    ensures f.Responded? && !f.response.ok ==>
      && c.Threw? && c.reason.Error?
      && Infix(Decimal.NatToString(f.response.status), c.reason.message)
      && Infix(f.response.statusText, c.reason.message)
      && Infix(f.response.text, c.reason.message)
  {
    match f
    case Rejected(t) => Threw(t)
    case Responded(r) =>
      if !r.ok then
        MessageMentions(r);
        Threw(Error(ErrorMessage(r)))
      else
        Returned(r.ok)
  }

  /** Number of leading decimal digits of `s`. */
  function LeadingDigits(s: string): (n: nat)
    ensures n <= |s|
    ensures Decimal.AllDigits(s[..n])
  {
    if |s| == 0 || !Decimal.IsDigit(s[0]) then 0
    else
      var n := 1 + LeadingDigits(s[1..]);
      assert s[..n] == [s[0]] + s[1..][..n - 1];
      n
  }

  /** Reads the status code back out of an API error message, if it has that shape. */
  function StatusOfMessage(m: string): Option<nat> {
    if |m| < |ErrorPrefix| || m[..|ErrorPrefix|] != ErrorPrefix then None
    else
      var rest := m[|ErrorPrefix|..];
      var n := LeadingDigits(rest);
      if n == 0 || n == |rest| || rest[n] != ' ' then None
      else Some(Decimal.ParseDigits(rest[..n]))
  }

  lemma {:induction false} LeadingDigitsOfDigitsThenSpace(d: string, tail: string)
    requires Decimal.AllDigits(d)
    ensures LeadingDigits(d + " " + tail) == |d|
    decreases |d|
  {
    if |d| > 0 {
      assert (d + " " + tail)[1..] == d[1..] + " " + tail;
      LeadingDigitsOfDigitsThenSpace(d[1..], tail);
    }
  }

  /** The status code of a failed response can be recovered exactly from the thrown message. */
  lemma StatusRecoverable(r: Response)
    ensures StatusOfMessage(ErrorMessage(r)) == Some(r.status)
  {
    var code := Decimal.NatToString(r.status);
    var tail := r.statusText + " - " + r.text;
    var rest := code + " " + tail;
    var m := ErrorMessage(r);
    assert m == ErrorPrefix + rest;
    assert m[|ErrorPrefix|..] == rest;
    LeadingDigitsOfDigitsThenSpace(code, tail);
    assert LeadingDigits(rest) == |code|;
    assert rest[|code|] == ' ';
    assert rest[..|code|] == code;
    Decimal.ParseOfNatToString(r.status);
  }
}
