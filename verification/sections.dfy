/**
 * Section titles.  `DashboardSection` branches on its `title` prop by
 * comparing it with six literal strings; every other title takes the
 * default branches.  `Title` names those six cases and keeps any other
 * title as `Other`.
 */
module Sections {

  datatype Title =
    | Devolucoes   // "Devoluções de clientes": customer returns, keyed by invoice number
    | Reverter     // "Reverter importação": undo an order import, keyed by internal order number
    | Financeiro   // "Financeiro": settlement, keyed by a date
    | Pedidos
    | Produtos
    | Estoque
    | Other(name: string)

  const DevolucoesName: string := "Devoluções de clientes"
  const ReverterName: string := "Reverter importação"
  const FinanceiroName: string := "Financeiro"
  const PedidosName: string := "Pedidos"
  const ProdutosName: string := "Produtos"
  const EstoqueName: string := "Estoque"

  /** One of the six titles the component compares against. */
  predicate IsRegisteredName(s: string) {
    s in {DevolucoesName, ReverterName, FinanceiroName, PedidosName, ProdutosName, EstoqueName}
  }

  function Name(t: Title): string {
    match t
    case Devolucoes => DevolucoesName
    case Reverter => ReverterName
    case Financeiro => FinanceiroName
    case Pedidos => PedidosName
    case Produtos => ProdutosName
    case Estoque => EstoqueName
    case Other(s) => s
  }

  /** A title value that `Classify` can produce: `Other` never hides a registered name. */
  predicate WellFormed(t: Title) {
    t.Other? ==> !IsRegisteredName(t.name)
  }

  /** Which branch of the component's `title === ...` comparisons a title string selects. */
  function Classify(s: string): (t: Title)
    ensures Name(t) == s
    ensures WellFormed(t)
    ensures t.Other? <==> !IsRegisteredName(s)
  {
    if s == DevolucoesName then Devolucoes
    else if s == ReverterName then Reverter
    else if s == FinanceiroName then Financeiro
    else if s == PedidosName then Pedidos
    else if s == ProdutosName then Produtos
    else if s == EstoqueName then Estoque
    else Other(s)
  }

  /** Classifying a title's own name gives the title back. */
  lemma ClassifyOfName(t: Title)
    requires WellFormed(t)
    ensures Classify(Name(t)) == t
  {
  }

  /** The three sections that render an input field and key their request body on it. */
  predicate HasInput(t: Title) {
    t == Devolucoes || t == Reverter || t == Financeiro
  }
}
