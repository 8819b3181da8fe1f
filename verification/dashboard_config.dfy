/**
 * The four sections the dashboard page renders, as concrete instances of
 * the dispatcher model.  The page passes no `empresa` prop, so inside every
 * section it is `undefined`.
 */
module DashboardConfig {
  import opened Optional
  import opened ApiClient
  import opened Sections
  import opened FormFields
  import opened Dispatcher

  datatype SectionConfig = SectionConfig(title: string, actions: seq<Action>)

  const EstoqueSection: SectionConfig := SectionConfig("Estoque", [
    Action("Integrar", "/estoque/integrar", "Integrar estoque")])

  const ProdutosSection: SectionConfig := SectionConfig("Produtos", [
    Action("Buscar", "/produtos/buscar", "Buscar produtos"),
    Action("Integrar", "/produtos/integrar", "Integrar produtos")])

  const PedidosSection: SectionConfig := SectionConfig("Pedidos", [
    Action("Buscar", "/pedidos/buscar", "Buscar pedidos"),
    Action("Integrar", "/pedidos/integrar", "Integrar pedidos"),
    Action("Faturar", "/pedidos/faturar", "Faturar pedidos")])

  const NotasSection: SectionConfig := SectionConfig("Notas", [
    Action("Integrar", "/notas/integrar", "Integrar notas fiscais"),
    Action("Emitir", "/notas/emitir", "Emitir notas fiscais"),
    Action("Confirmar", "/notas/confirmar", "Confirmar notas fiscais")])

  const Page: seq<SectionConfig> := [EstoqueSection, ProdutosSection, PedidosSection, NotasSection]

  /** The `empresa` every section of the page sees. */
  const PageEmpresa: Option<string> := None

  predicate DistinctCaptions(sec: SectionConfig) {
    forall i, j :: 0 <= i < j < |sec.actions| ==> sec.actions[i].caption != sec.actions[j].caption
  }

  /**
   * On the page every button of a section has its own caption, hence its
   * own busy flag.
   */
  lemma PageFlagsDistinct(i: nat, j: nat, k: nat)
    requires i < |Page|
    requires j < k < |Page[i].actions|
    ensures LoadingKey(Page[i].title, Page[i].actions[j].caption) != LoadingKey(Page[i].title, Page[i].actions[k].caption)
  {
  }

  /** "Notas" matches no registered title: all three of its buttons send a bodiless GET. */
  lemma NotasSendsGet(f: Fields, j: nat)
    requires j < |NotasSection.actions|
    ensures BuildRequest(NotasSection.title, NotasSection.actions[j], f, PageEmpresa).init
         == RequestInit(GET, [ContentTypeJson], None)
  {
  }

  /**
   * The three other sections POST `{ codemp: empresa }`; with `empresa`
   * undefined the serialised body is the empty object.
   */
  lemma PostsSendEmptyObject(i: nat, j: nat, f: Fields)
    requires i < 3
    requires j < |Page[i].actions|
    ensures BuildRequest(Page[i].title, Page[i].actions[j], f, PageEmpresa).init
         == RequestInit(POST, [ContentTypeJson], Some([]))
  {
  }

  /**
   * With the company code passed as the section's declared `empresa` prop,
   * the same buttons send exactly `{"codemp": e}`.
   */
  lemma PostsSendCompany(i: nat, j: nat, f: Fields, e: string)
    requires i < 3
    requires j < |Page[i].actions|
    ensures BuildRequest(Page[i].title, Page[i].actions[j], f, Some(e)).init
         == RequestInit(POST, [ContentTypeJson], Some([("codemp", JStr(e))]))
  {
    assert Classify(Page[i].title) in {Estoque, Produtos, Pedidos};
    var data: BodyData := [("codemp", Str(e))];
    assert data[1..] == [];
    assert Stringify(data) == [("codemp", JStr(e))];
  }

  /**
   * "Estoque / Integrar" answered with HTTP 500 and body "db down": one
   * error toast naming both, and the flag is down again.
   */
  lemma EstoqueServerError()
    ensures var answer := Responded(Response(false, 500, "Internal Server Error", "db down"));
      var (s', _, note) := Dispatch(InitialState, EstoqueSection.title, PageEmpresa, EstoqueSection.actions[0], answer);
      && note.Some? && note.value.title == ErrorTitle && note.value.variant == Destructive
      && Infix("500", note.value.description)
      && Infix("db down", note.value.description)
      && !IsLoading(s'.loading, LoadingKey("Estoque", "Integrar"))
  {
    var answer := Responded(Response(false, 500, "Internal Server Error", "db down"));
    DispatchCycle(InitialState, EstoqueSection.title, PageEmpresa, EstoqueSection.actions[0], answer);
    Status500Text();
  }

  lemma Status500Text()
    ensures Decimal.NatToString(500) == "500"
  {
    assert Decimal.NatToString(5) == "5";
    assert Decimal.NatToString(50) == "50";
  }
}
