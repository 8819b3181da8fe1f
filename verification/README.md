# Dashboard action dispatcher of the "Integrador Olist" control panel

This project is a Dafny model of the one piece of behaviour in the panel's
`DashboardSection` component. A section is a card with a title and some
buttons. Pressing a button calls an integration endpoint of the back end.
The model covers:

- the HTTP action client `apiCall`: request options and response normalisation
  (`api_client.dfy`, with decimal rendering of the status code in `decimal.dfy`);
- the branches the component takes on its title (`sections.dfy`);
- the three optional form fields and the `onChange` parsing of their inputs
  (`form_fields.dfy`);
- `handleAction`, split into `Start` (the busy flag goes up and the request is
  built) and `Settle` (toast, field clearing on success, flag release in the
  `finally` block), plus the `disableButton` predicate (`dispatcher.dfy`);
- one section instance over time. Clicks, typing and network answers arrive in
  any order. An invariant ties the busy flags to the calls in flight
  (`interleaving.dfy`);
- the four sections the dashboard page configures, used as concrete instances
  (`dashboard_config.dfy`).

Everything is an immutable datatype with pure functions. `fetch` is replaced
by its outcome (`FetchOutcome`: a `Response(ok, status, statusText, text)` or
a rejection). `Number(...)` is a function parameter `parse`. `toast` becomes
an output `Notification` value. `useState` updates become sequential state
transitions.

Notes on the code:
- `apiCall` never parses a JSON response. An ok response yields `true`.
- The `Content-Type: application/json` header is set on every request,
  GETs included.
- Busy flags are keyed by the string `title + "-" + label`.
  `LoadingKeyInjective` shows two labels of one section never share a key,
  and each section instance has its own flag map.
- `DashboardSection` disables a button only while it is busy or while its
  section's input is unset. No button is disabled by configuration.

## Model

| member | source | states |
|---|---|---|
| Decimal.NatToString | src/components/dashboard-section.tsx:34 | the status code is written as a non-empty string of decimal digits with no leading zero |
| Decimal.ParseOfNatToString | src/components/dashboard-section.tsx:34 | reading the written status code back as digits gives the original number |
| ApiClient.Stringify | src/components/dashboard-section.tsx:28 | serialising never adds members; an object with no `undefined` member keeps every member one for one, in order, with its key and value; one whose members are all `undefined` becomes `{}` |
| ApiClient.StringifyMembers | src/components/dashboard-section.tsx:28 | a member is in the serialised body exactly when the object literal held it with a defined value; `undefined` members vanish and `null` members stay |
| ApiClient.BuildInit | src/components/dashboard-section.tsx:23-29 | the method is kept and the headers are exactly the one JSON content-type header; a body is attached iff the method is POST and body data exists, and it is that data serialised, so a GET never carries a body |
| ApiClient.MessageMentions | src/components/dashboard-section.tsx:34 | the thrown message contains the status code, the status text and the response text |
| ApiClient.Normalize | src/components/dashboard-section.tsx:31-37 | a non-ok response throws an Error whose message contains the status code, status text and response text; an ok response returns, and it returns `true`, never `false`; a rejected fetch propagates unchanged |
| ApiClient.StatusRecoverable | src/components/dashboard-section.tsx:34 | the status code can be recovered exactly from the thrown message |
| Sections.Classify | src/components/dashboard-section.tsx:58-86 | each title string selects one branch, and the branch is `Other` exactly when the string is none of the six registered titles; the title's name is preserved |
| Sections.ClassifyOfName | src/components/dashboard-section.tsx:58-86 | classifying a title's own name gives the same title back |
| FormFields.ParseNumberInput | src/components/dashboard-section.tsx:141-153 | a numeric input is unset exactly when the entered text is empty; any other text, "0" included, sets it to the parsed number |
| FormFields.ParseDateInput | src/components/dashboard-section.tsx:165 | the date is unset exactly when the text is empty; otherwise it holds the entered text |
| FormFields.DateInputShowsTypedText | src/components/dashboard-section.tsx:164-165 | the controlled date input shows back exactly what was typed into it |
| FormFields.DateInputStable | src/components/dashboard-section.tsx:164-165 | re-reading what the date input shows reproduces every value the input can store |
| FormFields.Edit | src/components/dashboard-section.tsx:135-169 | only the section's own field changes; it becomes unset iff the text is empty; sections without an input change nothing |
| FormFields.ClearOwn | src/components/dashboard-section.tsx:97-110 | exactly the section's own field is cleared and the other two are unchanged |
| Dispatcher.MethodAndBody | src/components/dashboard-section.tsx:55-86 | the method is GET and there is no body data exactly for an unregistered title; a registered title's body ends with `codemp: empresa`, and it has a leading member exactly for the three input sections, keyed `numero`/`nunota`/`data` and `null` exactly when the field is unset |
| Dispatcher.BuildRequest | src/components/dashboard-section.tsx:55-88 | the request goes to the action's endpoint with the JSON header; it is a GET exactly for unregistered titles, and a GET has no body while a POST always has one |
| Dispatcher.BodyMembers | src/components/dashboard-section.tsx:55-86 | for a registered title the body's members are exactly `codemp` (only when `empresa` is defined) and, for the three input sections, their own field under `numero`/`nunota`/`data`, which is `null` when unset |
| Dispatcher.LoadingKey | src/components/dashboard-section.tsx:50 | the key is the title, then `-`, then the label, each recoverable at its position |
| Dispatcher.LoadingKeyInjective | src/components/dashboard-section.tsx:50 | within one section two buttons share a busy-flag key exactly when their labels are equal |
| Dispatcher.SetFlag | src/components/dashboard-section.tsx:52 | the spread update sets the chosen key and leaves every other key's entry as it was |
| Dispatcher.Start | src/components/dashboard-section.tsx:49-56 | on dispatch start the action's flag is true, no other flag or field changes, and the request is built from the fields as they were at the click |
| Dispatcher.Notify | src/components/dashboard-section.tsx:90-119 | a toast is shown for every settlement except a returned `false`; it is "Sucesso!" with the success variant and the description plus " executado com sucesso." exactly for a returned call; every thrown outcome gives an "Erro" toast with the destructive variant, carrying the error's message or the fallback text for a non-Error |
| Dispatcher.Settle | src/components/dashboard-section.tsx:88-122 | the flag is released on every path and no other flag changes; on success the section's own field is cleared and the others kept; on any other outcome the fields are unchanged |
| Dispatcher.Dispatch | src/components/dashboard-section.tsx:49-122 | a whole dispatch always shows a toast and always ends with its flag down |
| Dispatcher.DispatchCycle | src/components/dashboard-section.tsx:49-122 | a whole dispatch ends with the flag false and other flags untouched; it shows exactly one toast, which is a success iff the response was ok; an HTTP failure's toast names the status and the body text; fields are cleared only on success |
| Dispatcher.Disabled | src/components/dashboard-section.tsx:176-180 | a button is disabled exactly when its key is loading, or the title is "Devoluções de clientes", "Reverter importação" or "Financeiro" and that section's own field is unset |
| Dispatcher.DisabledOnlyWhileBusy | src/components/dashboard-section.tsx:176-180 | in a section without an input a button is disabled exactly while its flag is up |
| Dispatcher.EnabledIffTyped | src/components/dashboard-section.tsx:135-180 | in an input section an idle button becomes enabled exactly when non-empty text is entered, so an entered "0" enables it |
| Dispatcher.BusyAfterStart | src/components/dashboard-section.tsx:172-180 | in the state right after the click, the started button is disabled |
| Dispatcher.EnablementAfterSettle | src/components/dashboard-section.tsx:97-122 | in the state right after a settlement in an input section, a success leaves every button disabled; after any other outcome the settled button is disabled exactly when the input was already unset |
| Dispatcher.StartSettleCommute | src/components/dashboard-section.tsx:50-122 | starting one button and settling a different one give the same state in either order |
| Dispatcher.SettlesCommute | src/components/dashboard-section.tsx:97-122 | two settlements give the same state in either order |
| Interleaving.FreshConsistent | src/components/dashboard-section.tsx:42-47 | a fresh section instance has no flag up and nothing in flight |
| Interleaving.Step | src/components/dashboard-section.tsx:49-187 | each event adds at most one request and at most one toast and removes neither; a click shows no toast, an answer sends no request, and typing changes no flag and no call in flight |
| Interleaving.StepConsistent | src/components/dashboard-section.tsx:49-187 | every click, keystroke or answer keeps these facts: flags are up exactly for buttons in flight, and requests sent equal toasts shown plus calls in flight |
| Interleaving.RunConsistent | src/components/dashboard-section.tsx:49-187 | the same invariant holds after any sequence of events |
| Interleaving.OneToastPerRequest | src/components/dashboard-section.tsx:49-187 | from a fresh instance, once nothing is in flight, every request sent has produced exactly one toast |
| Interleaving.NoDuplicateDispatch | src/components/dashboard-section.tsx:176-187 | clicking a button whose call is in flight changes nothing, so no second request is sent |
| Interleaving.AnswerShowsOneToast | src/components/dashboard-section.tsx:88-122 | an answer to a call in flight adds exactly one toast, ends that call and lowers its flag |
| Interleaving.BusyUntilAnswered | src/components/dashboard-section.tsx:49-187 | a call in flight stays in flight, and its button stays disabled, through any events that do not answer it |
| Interleaving.ClickedStaysBusy | src/components/dashboard-section.tsx:172-187 | a button a click started stays disabled until its call is answered |
| Interleaving.MissingUntilTyped | src/components/dashboard-section.tsx:135-187 | in an input section an unset field stays unset, and every button stays disabled, until something is typed |
| Interleaving.SuccessDisablesUntilTyped | src/components/dashboard-section.tsx:97-180 | in an input section, a successful answer disables every button of the section until the input is typed again |
| DashboardConfig.PageFlagsDistinct | src/pages/Index.tsx:12-46 | on the dashboard page every button of a section has its own busy flag |
| DashboardConfig.NotasSendsGet | src/pages/Index.tsx:37-45 | the three "Notas" buttons send a GET with the JSON header and no body |
| DashboardConfig.PostsSendEmptyObject | src/pages/Index.tsx:67-74 | with `empresa` never passed, the Estoque, Produtos and Pedidos buttons POST the empty object `{}` |
| DashboardConfig.PostsSendCompany | src/pages/Index.tsx:67-74 | with a company code passed as `empresa`, the same buttons POST exactly `{"codemp": code}` |
| DashboardConfig.EstoqueServerError | src/pages/Index.tsx:13-19 | "Estoque / Integrar" answered with HTTP 500 and "db down" shows one error toast containing "500" and "db down", and the flag is down again |

## Left out

- Rendering (cards, buttons, inputs, the spinner, layout, icons, the theme toggle): presentation only.
- `fetch`, the base URL `VITE_API_URL` and `response.text()`: network calls. The model receives their outcome as a `FetchOutcome` value.
- `JSON.stringify` text: the body is modelled as the list of members it serialises, not as characters.
- `Number(...)` parsing: a parameter `parse: string -> int`. Fractional numbers and NaN are not modelled. Only the empty/non-empty distinction is kept.
- Formatting of non-integral or negative status codes: the status is a natural number.
- The `variant` of an action: presentation only.
- React's render scheduling and the event loop: state updates are sequential transitions, and concurrency is modelled only as the interleaving of clicks, typing and answers for one section instance.
- Report display and PDF export: `DashboardSection` contains no code for them.
- Sections with duplicate labels: the page defines none (`DashboardConfig.PageFlagsDistinct`). `Interleaving` tracks calls in flight by label, matching the flag key.

## Findings

| source | as written | input that shows it | evidently intended | confidence | as-written member | corrected member |
|---|---|---|---|---|---|---|
| src/pages/Index.tsx:67-74 | the page renders every `DashboardSection` without the `empresa` prop its props declare as required, so `codemp: empresa` is `undefined` and `JSON.stringify` drops it | pressing "Estoque / Integrar" sends the body `{}` | the body carries the company code, `{"codemp": code}` | medium, not executed | DashboardConfig.PostsSendEmptyObject | DashboardConfig.PostsSendCompany |
