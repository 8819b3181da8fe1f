/**
 * The three optional form fields of a dashboard section (`numeroNota`,
 * `numeroNunota`, `dataBaixa`) and the `onChange` rules of their inputs.
 * Every section instance holds all three; only the section whose title owns
 * a field renders an input for it.
 */
module FormFields {
  import opened Optional
  import opened Sections

  datatype Fields = Fields(numeroNota: Option<int>, numeroNunota: Option<int>, dataBaixa: Option<string>)

  /** All three fields start out `undefined`. */
  const NoFields: Fields := Fields(None, None, None)

  /**
   * `e.target.value ? Number(e.target.value) : undefined`: the empty string
   * is falsy and leaves the field unset; every other string, "0" included,
   * is truthy and sets it.  `Number` itself is the parameter `parse`.
   */
  function ParseNumberInput(text: string, parse: string -> int): (v: Option<int>)
    ensures v.None? <==> text == ""
    ensures v.Some? ==> v.value == parse(text)
  {
    if text != "" then Some(parse(text)) else None
  }

  /** `e.target.value ? String(e.target.value) : undefined` for the date input. */
  function ParseDateInput(text: string): (v: Option<string>)
    ensures v.None? <==> text == ""
    ensures v.Some? ==> v.value == text
  {
    if text != "" then Some(text) else None
  }

  /** What the controlled date input displays: `dataBaixa ?? ""`. */
  function ShownDate(v: Option<string>): string {
    v.OrElse("")
  }

  /** The date input always displays exactly what was typed into it. */
  lemma DateInputShowsTypedText(text: string)
    ensures ShownDate(ParseDateInput(text)) == text
  {
  }

  /** Typing then displaying then typing again changes nothing: the stored value is stable. */
  lemma DateInputStable(v: Option<string>)
    ensures ParseDateInput(ShownDate(v)) == v <==> v != Some("")
  {
  }

  /**
   * The section's own input is unset.  This is the field part of the
   * button-disable condition; sections without an input never miss one.
   */
  predicate MissingInput(f: Fields, t: Title) {
    || (t == Devolucoes && f.numeroNota == None)
    || (t == Reverter && f.numeroNunota == None)
    || (t == Financeiro && f.dataBaixa == None)
  }

  /** `g` agrees with `f` on every field that section `t` does not own. */
  predicate AgreeOutside(f: Fields, g: Fields, t: Title) {
    && (t != Devolucoes ==> g.numeroNota == f.numeroNota)
    && (t != Reverter ==> g.numeroNunota == f.numeroNunota)
    && (t != Financeiro ==> g.dataBaixa == f.dataBaixa)
  }

  /**
   * The `onChange` of the input rendered in section `t` receiving `text`.
   * A section without an input has no such handler, so nothing changes.
   */
  function Edit(f: Fields, t: Title, text: string, parse: string -> int): (g: Fields)
    ensures AgreeOutside(f, g, t)
    ensures HasInput(t) ==> (MissingInput(g, t) <==> text == "")
    ensures !HasInput(t) ==> g == f
    ensures t == Devolucoes && text != "" ==> g.numeroNota == Some(parse(text))
    ensures t == Reverter && text != "" ==> g.numeroNunota == Some(parse(text))
    ensures t == Financeiro && text != "" ==> g.dataBaixa == Some(text)
  {
    match t
    case Devolucoes => f.(numeroNota := ParseNumberInput(text, parse))
    case Reverter => f.(numeroNunota := ParseNumberInput(text, parse))
    case Financeiro => f.(dataBaixa := ParseDateInput(text))
    case _ => f
  }

  /** The clearing done after a successful dispatch: the section's own field becomes unset. */
  function ClearOwn(f: Fields, t: Title): (g: Fields)
    ensures AgreeOutside(f, g, t)
    ensures HasInput(t) ==> MissingInput(g, t)
    ensures !HasInput(t) ==> g == f
  {
    match t
    case Devolucoes => f.(numeroNota := None)
    case Reverter => f.(numeroNunota := None)
    case Financeiro => f.(dataBaixa := None)
    case _ => f
  }
}
