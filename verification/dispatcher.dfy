/**
 * The action dispatcher `handleAction` of `DashboardSection`, split into its
 * two halves so that the interleaving of different actions can be stated:
 * `Start` marks the action busy and builds its request from the fields as
 * they are when the button is clicked; `Settle` consumes how `apiCall`
 * settled, emits the notification, clears the section's field on success
 * and releases the busy flag on every path (the `finally` block).
 */
module Dispatcher {
  import opened Optional
  import opened ApiClient
  import opened Sections
  import opened FormFields

  /** One button of a section: `caption` is its `label`; `variant` is presentation only and not modelled. */
  datatype Action = Action(caption: string, endpoint: string, description: string)

  /** The call `apiCall` makes: the endpoint and the options it hands to `fetch`. */
  datatype Request = Request(endpoint: string, init: RequestInit)

  // ---------------------------------------------------------------- request body

  /** `empresa` as an object member: it stays `undefined` when the prop was not passed. */
  function CompanyValue(empresa: Option<string>): (u: JsValue)
    ensures u == Undefined <==> empresa.None?
  {
    match empresa
    case Some(e) => Str(e)
    case None => Undefined
  }

  /** `x ?? null` for a numeric field. */
  function NumberOrNull(v: Option<int>): (u: JsValue)
    ensures u != Undefined
  {
    match v
    case Some(n) => Num(n)
    case None => Null
  }

  /** `x ?? null` for the date field. */
  function TextOrNull(v: Option<string>): (u: JsValue)
    ensures u != Undefined
  {
    match v
    case Some(s) => Str(s)
    case None => Null
  }

  /**
   * The chain of `if (title === ...)` assignments to `method` and `bodyData`.
   * The six titles are distinct, so at most one branch fires and the
   * defaults (GET, no body) survive for every other title.
   */
  function MethodAndBody(t: Title, f: Fields, empresa: Option<string>): (r: (HttpMethod, Option<BodyData>))
    ensures r.0 == GET <==> t.Other?
    ensures r.1.None? <==> t.Other?
    ensures r.1.Some? ==> 1 <= |r.1.value| <= 2
    ensures r.1.Some? ==> r.1.value[|r.1.value| - 1] == ("codemp", CompanyValue(empresa))
    ensures r.1.Some? ==> (|r.1.value| == 2 <==> HasInput(t))
    ensures r.1.Some? && HasInput(t) ==> r.1.value[0].0 == FieldKey(t)
    ensures r.1.Some? && HasInput(t) ==> (r.1.value[0].1 == Null <==> MissingInput(f, t))
  {
    match t
    case Devolucoes => (POST, Some([("numero", NumberOrNull(f.numeroNota)), ("codemp", CompanyValue(empresa))]))
    case Reverter => (POST, Some([("nunota", NumberOrNull(f.numeroNunota)), ("codemp", CompanyValue(empresa))]))
    case Financeiro => (POST, Some([("data", TextOrNull(f.dataBaixa)), ("codemp", CompanyValue(empresa))]))
    case Pedidos => (POST, Some([("codemp", CompanyValue(empresa))]))
    case Produtos => (POST, Some([("codemp", CompanyValue(empresa))]))
    case Estoque => (POST, Some([("codemp", CompanyValue(empresa))]))
    case Other(_) => (GET, None)
  }

  /** The request `handleAction` issues for `action` in section `title`. */
  function BuildRequest(title: string, action: Action, f: Fields, empresa: Option<string>): (r: Request)
    ensures r.endpoint == action.endpoint
    ensures ContentTypeJson in r.init.headers
    ensures r.init.verb == GET <==> !IsRegisteredName(title)
    ensures r.init.verb == GET ==> r.init.body == None
    ensures r.init.verb == POST ==> r.init.body.Some?
  {
    var (verb, bodyData) := MethodAndBody(Classify(title), f, empresa);
    Request(action.endpoint, BuildInit(verb, bodyData))
  }

  /** The JSON member name under which section `t` sends its own field. */
  function FieldKey(t: Title): string
    requires HasInput(t)
  {
    match t
    case Devolucoes => "numero"
    case Reverter => "nunota"
    case Financeiro => "data"
  }

  /** The JSON value section `t` sends for its own field: `null` while unset. */
  function FieldJson(t: Title, f: Fields): (v: JsonValue)
    requires HasInput(t)
    ensures v == JNull <==> MissingInput(f, t)
  {
    match t
    case Devolucoes => if f.numeroNota.Some? then JNum(f.numeroNota.value) else JNull
    case Reverter => if f.numeroNunota.Some? then JNum(f.numeroNunota.value) else JNull
    case Financeiro => if f.dataBaixa.Some? then JStr(f.dataBaixa.value) else JNull
  }

  /**
   * The members of the JSON body sent for a registered title: `codemp` when
   * `empresa` was given, the section's own field (`null` when unset) for the
   * three input sections, and nothing else.
   */
  lemma BodyMembers(title: string, action: Action, f: Fields, empresa: Option<string>, k: string, v: JsonValue)
    requires IsRegisteredName(title)
    ensures BuildRequest(title, action, f, empresa).init.body.Some?
    ensures (k, v) in BuildRequest(title, action, f, empresa).init.body.value <==>
      || (k == "codemp" && empresa.Some? && v == JStr(empresa.value))
      || (HasInput(Classify(title)) && k == FieldKey(Classify(title)) && v == FieldJson(Classify(title), f))
  {
  }

  // ---------------------------------------------------------------- busy flags

  /** The busy-flag key `${title}-${action.caption}`. */
  function LoadingKey(title: string, caption: string): (k: string)
    ensures |k| == |title| + 1 + |caption|
    ensures k[..|title|] == title && k[|title|] == '-' && k[|title| + 1..] == caption
  {
    title + "-" + caption
  }

  /** Within one section the key determines the label: distinct buttons never share a flag. */
  lemma LoadingKeyInjective(title: string, l1: string, l2: string)
    ensures LoadingKey(title, l1) == LoadingKey(title, l2) <==> l1 == l2
  {
    if LoadingKey(title, l1) == LoadingKey(title, l2) {
      var n := |title| + 1;
      assert l1 == LoadingKey(title, l1)[n..];
      assert l2 == LoadingKey(title, l2)[n..];
    }
  }

  /** The `loadingStates` record of one section instance. */
  type Loading = map<string, bool>

  /** The record's entry for `k`: absent is `undefined`. */
  function Get(m: Loading, k: string): Option<bool> {
    if k in m then Some(m[k]) else None
  }

  /** `loadingStates[k]` is truthy. */
  predicate IsLoading(m: Loading, k: string) {
    Get(m, k) == Some(true)
  }

  /** `m2` is `m1` except possibly at `key`: what the `...prev` spread guarantees. */
  ghost predicate SameExcept(m1: Loading, m2: Loading, key: string) {
    forall k :: k != key ==> Get(m2, k) == Get(m1, k)
  }

  /** `setLoadingStates(prev => ({ ...prev, [key]: b }))`. */
  function SetFlag(m: Loading, key: string, b: bool): (m': Loading)
    ensures Get(m', key) == Some(b)
    ensures SameExcept(m, m', key)
  {
    m[key := b]
  }

  // ---------------------------------------------------------------- dispatch

  /** The state of one `DashboardSection` instance that dispatch reads and writes. */
  datatype State = State(loading: Loading, fields: Fields)

  const InitialState: State := State(map[], NoFields)

  datatype Variant = SuccessVariant | Destructive

  /** A toast: title, description and variant. */
  datatype Notification = Toast(title: string, description: string, variant: Variant)

  const SuccessTitle: string := "Sucesso!"
  const SuccessSuffix: string := " executado com sucesso."
  const ErrorTitle: string := "Erro"
  const FallbackMessage: string := "Falha ao executar a operação."

  /**
   * The click: the action's flag becomes true, nothing else changes, and the
   * request is built from the fields as they are now.
   */
  function Start(s: State, title: string, empresa: Option<string>, action: Action): (r: (State, Request))
    ensures IsLoading(r.0.loading, LoadingKey(title, action.caption))
    ensures SameExcept(s.loading, r.0.loading, LoadingKey(title, action.caption))
    ensures r.0.fields == s.fields
    ensures r.1.endpoint == action.endpoint
    ensures r.1 == BuildRequest(title, action, s.fields, empresa)
  {
    (s.(loading := SetFlag(s.loading, LoadingKey(title, action.caption), true)),
     BuildRequest(title, action, s.fields, empresa))
  }

  /** The toast for a settled call; a returned `false` shows none (`if (result)`). */
  function Notify(action: Action, result: CallResult): (n: Option<Notification>)
    ensures n.None? <==> result == Returned(false)
    ensures n.Some? ==> (n.value.variant == SuccessVariant <==> result.Returned?)
    ensures n.Some? ==> (n.value.title == SuccessTitle <==> result.Returned?)
    ensures result == Returned(true) ==> n.value.description == action.description + SuccessSuffix
    ensures result.Threw? && result.reason.Error? ==> n.value.description == result.reason.message
    ensures result == Threw(NonError) ==> n.value.description == FallbackMessage
    ensures result.Threw? ==> n.Some? && n.value.title == ErrorTitle && n.value.variant == Destructive
  {
    match result
    case Returned(b) =>
      if b then Some(Toast(SuccessTitle, action.description + SuccessSuffix, SuccessVariant)) else None
    case Threw(Error(m)) => Some(Toast(ErrorTitle, m, Destructive))
    case Threw(NonError) => Some(Toast(ErrorTitle, FallbackMessage, Destructive))
  }

  /**
   * The settlement of `apiCall`: the toast, the field clearing on success
   * only, and the release of the flag whatever happened.
   */
  function Settle(s: State, title: string, action: Action, result: CallResult): (r: (State, Option<Notification>))
    ensures Get(r.0.loading, LoadingKey(title, action.caption)) == Some(false)
    ensures SameExcept(s.loading, r.0.loading, LoadingKey(title, action.caption))
    ensures AgreeOutside(s.fields, r.0.fields, Classify(title))
    ensures result == Returned(true) && HasInput(Classify(title)) ==> MissingInput(r.0.fields, Classify(title))
    ensures result != Returned(true) ==> r.0.fields == s.fields
    ensures r.1 == Notify(action, result)
  {
    var fields := if result == Returned(true) then ClearOwn(s.fields, Classify(title)) else s.fields;
    (State(SetFlag(s.loading, LoadingKey(title, action.caption), false), fields), Notify(action, result))
  }

  /** A whole dispatch against what the network answered. */
  function Dispatch(s: State, title: string, empresa: Option<string>, action: Action, answer: FetchOutcome)
    : (r: (State, Request, Option<Notification>))
    ensures r.2.Some?
    ensures !IsLoading(r.0.loading, LoadingKey(title, action.caption))
  {
    var (s1, req) := Start(s, title, empresa, action);
    var (s2, note) := Settle(s1, title, action, Normalize(answer));
    (s2, req, note)
  }

  /**
   * A full dispatch: the flag is released, no other flag moves, exactly one
   * toast is shown, it is a success exactly when the response was ok, a
   * failure toast for an HTTP error names the status and the body text, the
   * field is cleared on success and untouched on failure.
   */
  lemma DispatchCycle(s: State, title: string, empresa: Option<string>, action: Action, answer: FetchOutcome)
    ensures var (s', _, _) := Dispatch(s, title, empresa, action, answer);
      && Get(s'.loading, LoadingKey(title, action.caption)) == Some(false)
      && SameExcept(s.loading, s'.loading, LoadingKey(title, action.caption))
    ensures var (_, req, _) := Dispatch(s, title, empresa, action, answer);
      req == BuildRequest(title, action, s.fields, empresa)
    ensures var (_, _, note) := Dispatch(s, title, empresa, action, answer);
      && note.Some?
      && (note.value.variant == SuccessVariant <==> answer.Responded? && answer.response.ok)
    ensures var (_, _, note) := Dispatch(s, title, empresa, action, answer);
      answer.Responded? && !answer.response.ok ==>
        && note.value.title == ErrorTitle
        && Infix(Decimal.NatToString(answer.response.status), note.value.description)
        && Infix(answer.response.text, note.value.description)
    ensures var (s', _, _) := Dispatch(s, title, empresa, action, answer);
      && AgreeOutside(s.fields, s'.fields, Classify(title))
      && (answer.Responded? && answer.response.ok && HasInput(Classify(title)) ==> MissingInput(s'.fields, Classify(title)))
      && (!(answer.Responded? && answer.response.ok) ==> s'.fields == s.fields)
  {
  }

  // ---------------------------------------------------------------- enablement

  /** `disableButton`: the action is busy, or its section's input is unset. */
  predicate Disabled(s: State, title: string, caption: string)
    ensures IsLoading(s.loading, LoadingKey(title, caption)) ==> Disabled(s, title, caption)
    ensures title == DevolucoesName && s.fields.numeroNota == None ==> Disabled(s, title, caption)
    ensures title == ReverterName && s.fields.numeroNunota == None ==> Disabled(s, title, caption)
    ensures title == FinanceiroName && s.fields.dataBaixa == None ==> Disabled(s, title, caption)
    ensures Disabled(s, title, caption) ==>
      || IsLoading(s.loading, LoadingKey(title, caption))
      || (title == DevolucoesName && s.fields.numeroNota == None)
      || (title == ReverterName && s.fields.numeroNunota == None)
      || (title == FinanceiroName && s.fields.dataBaixa == None)
  {
    IsLoading(s.loading, LoadingKey(title, caption)) || MissingInput(s.fields, Classify(title))
  }

  /** Buttons of a section without an input are disabled exactly while busy. */
  lemma DisabledOnlyWhileBusy(s: State, title: string, caption: string)
    requires !HasInput(Classify(title))
    ensures Disabled(s, title, caption) <==> IsLoading(s.loading, LoadingKey(title, caption))
  {
  }

  /**
   * In an input section, an idle button is enabled exactly when something
   * was typed: an entered "0" enables it, clearing the input disables it.
   */
  lemma EnabledIffTyped(s: State, title: string, caption: string, text: string, parse: string -> int)
    requires HasInput(Classify(title))
    requires !IsLoading(s.loading, LoadingKey(title, caption))
    ensures !Disabled(s.(fields := Edit(s.fields, Classify(title), text, parse)), title, caption) <==> text != ""
  {
  }

  /** Right after the click, the started action's button is disabled. */
  lemma BusyAfterStart(s: State, title: string, empresa: Option<string>, action: Action)
    ensures Disabled(Start(s, title, empresa, action).0, title, action.caption)
  {
  }

  /**
   * Right after a settlement in an input section: a success disables every
   * button of the section, while after any other outcome the settled
   * button is disabled exactly when the input was already unset.
   */
  lemma EnablementAfterSettle(s: State, title: string, action: Action, result: CallResult, caption: string)
    requires HasInput(Classify(title))
    ensures var s' := Settle(s, title, action, result).0;
      result == Returned(true) ==> Disabled(s', title, caption)
    ensures var s' := Settle(s, title, action, result).0;
      result != Returned(true) && caption == action.caption ==>
        (Disabled(s', title, caption) <==> MissingInput(s.fields, Classify(title)))
  {
  }

  // ---------------------------------------------------------------- interleaving

  /** Starting one action and settling a different one commute. */
  lemma StartSettleCommute(s: State, title: string, empresa: Option<string>, a: Action, b: Action, result: CallResult)
    requires a.caption != b.caption
    ensures Settle(Start(s, title, empresa, a).0, title, b, result).0
         == Start(Settle(s, title, b, result).0, title, empresa, a).0
  {
    LoadingKeyInjective(title, a.caption, b.caption);
    var ka := LoadingKey(title, a.caption);
    var kb := LoadingKey(title, b.caption);
    assert s.loading[ka := true][kb := false] == s.loading[kb := false][ka := true];
  }

  /** Two settlements leave the same state in either order; only the toasts' order differs. */
  lemma SettlesCommute(s: State, title: string, a: Action, ra: CallResult, b: Action, rb: CallResult)
    ensures Settle(Settle(s, title, a, ra).0, title, b, rb).0
         == Settle(Settle(s, title, b, rb).0, title, a, ra).0
  {
  }
}
