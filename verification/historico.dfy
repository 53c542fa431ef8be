/** The view state of the price-history table (source:
    src/components/TabelaHistorico.tsx): the chosen sort column and
    direction, the page, the search text and the brand filter, and how the
    header clicks, the refresh button and the filters change them. */
module Historico {
  import opened Wrappers

  datatype SortField = ReferenciaBackup | PrecoatualAnterior | ValidoAte | Idmarca

  datatype SortOrder = Asc | Desc

  datatype HistoricoView = HistoricoView(
    sortField: SortField,
    sortOrder: SortOrder,
    pagina: int,
    pesquisa: string,
    marca: Option<int>)

  /** The state the table opens in. */
  const Inicial: HistoricoView := HistoricoView(ValidoAte, Desc, 1, "", None)

  function Inverte(o: SortOrder): SortOrder {
    if o == Asc then Desc else Asc
  }

  /** `handleSort`: clicking the current column flips the direction;
      clicking another column selects it, ascending. Page, search and
      brand filter are untouched. */
  function HandleSort(v: HistoricoView, f: SortField): (r: HistoricoView)
    ensures r.sortField == f
    ensures v.sortField == f ==> r.sortOrder != v.sortOrder
    ensures v.sortField != f ==> r.sortOrder == Asc
    ensures r.pagina == v.pagina && r.pesquisa == v.pesquisa && r.marca == v.marca
  {
    if v.sortField == f then v.(sortOrder := Inverte(v.sortOrder))
    else v.(sortField := f, sortOrder := Asc)
  }

  /** Two clicks on the current column restore the view. */
  lemma HandleSortInvolution(v: HistoricoView)
    ensures HandleSort(HandleSort(v, v.sortField), v.sortField) == v
  {
  }

  /** Two clicks on a new column sort it descending. */
  lemma HandleSortNewTwice(v: HistoricoView, f: SortField)
    requires v.sortField != f
    ensures HandleSort(HandleSort(v, f), f).sortField == f
    ensures HandleSort(HandleSort(v, f), f).sortOrder == Desc
  {
  }

  /** `handleRefresh`: back to "valido_ate" descending, page 1, no search;
      the brand filter is kept. */
  function HandleRefresh(v: HistoricoView): (r: HistoricoView)
    ensures r.sortField == ValidoAte && r.sortOrder == Desc
    ensures r.pagina == 1 && r.pesquisa == ""
    ensures r.marca == v.marca
  {
    Inicial.(marca := v.marca)
  }

  /** Refreshing twice is refreshing once; without a brand filter,
      refreshing returns to the opening state whatever came before. */
  lemma HandleRefreshIdempotent(v: HistoricoView)
    ensures HandleRefresh(HandleRefresh(v)) == HandleRefresh(v)
    ensures v.marca == None ==> HandleRefresh(v) == Inicial
  {
  }

  /** The brand buttons ("Todas" is `None`): filter and go to page 1. */
  function FiltrarMarca(v: HistoricoView, marca: Option<int>): (r: HistoricoView)
    ensures r.marca == marca && r.pagina == 1
    ensures r.sortField == v.sortField && r.sortOrder == v.sortOrder && r.pesquisa == v.pesquisa
  {
    v.(marca := marca, pagina := 1)
  }

  /** Typing in the search box, or clearing it with its button (`texto`
      empty): search and go to page 1. */
  function Pesquisar(v: HistoricoView, texto: string): (r: HistoricoView)
    ensures r.pesquisa == texto && r.pagina == 1
    ensures r.sortField == v.sortField && r.sortOrder == v.sortOrder && r.marca == v.marca
  {
    v.(pesquisa := texto, pagina := 1)
  }

  /** The two filters are independent of the order they are set in. */
  lemma FiltersCommute(v: HistoricoView, marca: Option<int>, texto: string)
    ensures FiltrarMarca(Pesquisar(v, texto), marca) == Pesquisar(FiltrarMarca(v, marca), texto)
  {
  }
}
