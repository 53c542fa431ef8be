/** The paging arithmetic both tables share (source:
    src/components/TabelaComponentes.tsx and
    src/components/TabelaHistorico.tsx): 20 rows per page, the page count,
    the previous/next clamps and the "start–end de total" label. */
module Pagination {
  import opened Database

  /** `porPagina`. */
  const PorPagina: nat := 20

  /** `Math.ceil(total / porPagina)`. */
  function TotalPaginas(total: nat): (tp: nat)
    ensures tp * PorPagina >= total
    ensures tp > 0 ==> (tp - 1) * PorPagina < total
  {
    (total + PorPagina - 1) / PorPagina
  }

  /** No rows means no pages; otherwise the last page is not empty. */
  lemma TotalPaginasZeroIff(total: nat)
    ensures TotalPaginas(total) == 0 <==> total == 0
  {
  }

  /** The "previous" button: `Math.max(1, p - 1)`. */
  function Anterior(p: int): (r: int)
    ensures r >= 1
    ensures p > 1 ==> r == p - 1
    ensures p <= 1 ==> r == 1
  {
    if p - 1 > 1 then p - 1 else 1
  }

  /** The "next" button: `Math.min(totalPaginas, p + 1)`. */
  function Seguinte(p: int, tp: int): (r: int)
    ensures r <= tp
    ensures p < tp ==> r == p + 1
    ensures p >= tp ==> r == tp
  {
    if tp < p + 1 then tp else p + 1
  }

  /** From a valid page, both buttons lead to a valid page. */
  lemma NavigationStaysInRange(p: int, tp: int)
    requires 1 <= p <= tp
    ensures 1 <= Anterior(p) <= tp
    ensures 1 <= Seguinte(p, tp) <= tp
  {
  }

  /** "Next" then "previous" returns to the page (unless on the last one),
      and "previous" then "next" too (unless on the first). */
  lemma NavigationRoundTrip(p: int, tp: int)
    requires 1 <= p <= tp
    ensures p < tp ==> Anterior(Seguinte(p, tp)) == p
    ensures p > 1 ==> Seguinte(Anterior(p), tp) == p
  {
  }

  /** The controls are shown only when there is more than one page. */
  predicate MostraPaginacao(total: nat) {
    TotalPaginas(total) > 1
  }

  /** That is: more rows than fit on one page. */
  lemma MostraPaginacaoIff(total: nat)
    ensures MostraPaginacao(total) <==> total > PorPagina
  {
  }

  /** The label's first and last row, counting from 1. */
  function Rotulo(p: int, total: nat): (r: (int, int))
    ensures r.0 == (p - 1) * PorPagina + 1
    ensures r.1 <= total && r.1 <= p * PorPagina
    ensures r.1 == total || r.1 == p * PorPagina
  {
    var fim := if p * PorPagina < total then p * PorPagina else total;
    ((p - 1) * PorPagina + 1, fim)
  }

  /** On a valid page the label is a non-empty range of at most 20 rows
      within the total. */
  lemma RotuloOrdered(p: int, total: nat)
    requires 1 <= p <= TotalPaginas(total)
    ensures 1 <= Rotulo(p, total).0 <= Rotulo(p, total).1 <= total
    ensures Rotulo(p, total).1 - Rotulo(p, total).0 < PorPagina
  {
  }

  /** The label names the rows the page query asks for: its first row is
      the requested offset plus one, and its last row is the end of the
      requested range, cut at the total. */
  lemma RotuloMatchesRequest(p: int, total: nat)
    requires 1 <= p <= TotalPaginas(total)
    ensures Rotulo(p, total).0 == RequestRange(p, PorPagina).0 + 1
    ensures Rotulo(p, total).1 <= RequestRange(p, PorPagina).1 + 1
    ensures Rotulo(p, total).1 == total || Rotulo(p, total).1 == RequestRange(p, PorPagina).1 + 1
  {
  }

  /** The labels of consecutive pages meet without gap or overlap, and the
      last page ends at the total. */
  lemma RotulosTile(p: int, total: nat)
    requires 1 <= p < TotalPaginas(total)
    ensures Rotulo(p + 1, total).0 == Rotulo(p, total).1 + 1
    ensures Rotulo(TotalPaginas(total), total).1 == total
  {
  }
}
