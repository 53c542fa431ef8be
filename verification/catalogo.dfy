/** The view state of the catalogue table (source:
    src/components/TabelaComponentes.tsx): the page, the search text and
    the brand filter, and the brand name shown on each row. */
module Catalogo {
  import opened Wrappers
  import opened Text
  import opened Types

  datatype CatalogoView = CatalogoView(pagina: int, pesquisa: string, marca: Option<int>)

  const Inicial: CatalogoView := CatalogoView(1, "", None)

  /** The brand buttons ("Todas" is `None`): filter and go to page 1. */
  function FiltrarMarca(v: CatalogoView, marca: Option<int>): (r: CatalogoView)
    ensures r.marca == marca && r.pagina == 1 && r.pesquisa == v.pesquisa
  {
    v.(marca := marca, pagina := 1)
  }

  /** Typing in the search box: search and go to page 1. */
  function Pesquisar(v: CatalogoView, texto: string): (r: CatalogoView)
    ensures r.pesquisa == texto && r.pagina == 1 && r.marca == v.marca
  {
    v.(pesquisa := texto, pagina := 1)
  }

  /** Whatever page was shown, setting both filters from the opening
      state's filters gives the opening state back. */
  lemma FiltersResetToStart(v: CatalogoView)
    ensures Pesquisar(FiltrarMarca(v, None), "") == Inicial
  {
  }

  /** `marcas.find(m => m.idmarca === idmarca)`: the position of the first
      brand with that id. */
  function FindMarca(marcas: seq<Marca>, idmarca: int): (r: Option<nat>)
    ensures r.Some? ==> r.value < |marcas| && marcas[r.value].idmarca == idmarca
    ensures r.Some? ==> forall j :: 0 <= j < r.value ==> marcas[j].idmarca != idmarca
    ensures r.None? <==> forall j :: 0 <= j < |marcas| ==> marcas[j].idmarca != idmarca
  {
    if marcas == [] then None
    else if marcas[0].idmarca == idmarca then Some(0)
    else
      var rest := FindMarca(marcas[1..], idmarca);
      if rest.None? then None else Some(rest.value + 1)
  }

  function FallbackNome(idmarca: int): string {
    "Marca " + IntToString(idmarca)
  }

  /** `getNomeMarca`: the name of the first brand with that id, or
      "Marca <id>" when there is none or its name is empty. */
  function GetNomeMarca(marcas: seq<Marca>, idmarca: int): (r: string)
    ensures r == FallbackNome(idmarca) || (exists j :: 0 <= j < |marcas| && marcas[j].idmarca == idmarca && marcas[j].nome == r)
    ensures r != ""
  {
    var found := FindMarca(marcas, idmarca);
    if found.Some? && marcas[found.value].nome != "" then marcas[found.value].nome
    else FallbackNome(idmarca)
  }

  /** A brand whose id appears once, with a non-empty name, is shown by
      that name. */
  lemma GetNomeMarcaUnique(marcas: seq<Marca>, i: nat)
    requires i < |marcas| && marcas[i].nome != ""
    requires forall j :: 0 <= j < |marcas| && j != i ==> marcas[j].idmarca != marcas[i].idmarca
    ensures GetNomeMarca(marcas, marcas[i].idmarca) == marcas[i].nome
  {
  }

  /** An id absent from the list is shown as "Marca <id>". */
  lemma GetNomeMarcaAbsent(marcas: seq<Marca>, idmarca: int)
    requires forall j :: 0 <= j < |marcas| ==> marcas[j].idmarca != idmarca
    ensures GetNomeMarca(marcas, idmarca) == FallbackNome(idmarca)
  {
  }
}
