/** The discount table (source: src/components/TabelaDescontos.tsx): how a
    stored discount is displayed, the order brands are listed in, which
    brand is selected first, and when the discount list is empty. */
module Descontos {
  import opened Wrappers
  import opened Types

  /** A stored discount (`Desconto`); `valor` is either a fraction in
      (0, 1] or already a percentage. */
  datatype Desconto = Desconto(grupo: string, valor: real)

  /** `valorVisual`: a fraction in (0, 1] is shown as a percentage; any
      other value (zero, negative, or above 1) is shown as stored. */
  function ValorVisual(v: real): (r: real)
    ensures 0.0 < v <= 1.0 ==> r == v * 100.0
    ensures !(0.0 < v <= 1.0) ==> r == v
  {
    if v <= 1.0 && v > 0.0 then v * 100.0 else v
  }

  /** Every value in (0, 100] is displayed within (0, 100]: fractions are
      scaled into that range and percentages above 1 are kept. */
  lemma ValorVisualRange(v: real)
    requires 0.0 < v <= 100.0
    ensures 0.0 < ValorVisual(v) <= 100.0
    ensures v <= 1.0 ==> ValorVisual(v) >= v
  {
  }

  /** Fractions are scaled injectively, so distinct fractions stay
      distinct on screen. */
  lemma ValorVisualInjectiveOnFractions(u: real, v: real)
    requires 0.0 < u <= 1.0 && 0.0 < v <= 1.0
    requires ValorVisual(u) == ValorVisual(v)
    ensures u == v
  {
  }

  /** A fraction and a percentage can display alike: 0.5 and 50 both show
      as 50. */
  lemma ValorVisualAmbiguous()
    ensures ValorVisual(0.5) == ValorVisual(50.0) == 50.0
  {
  }

  /** Brands in ascending `idmarca` order. */
  predicate SortedById(ms: seq<Marca>) {
    forall i, j :: 0 <= i < j < |ms| ==> ms[i].idmarca <= ms[j].idmarca
  }

  /** Inserts `m` before the first brand with a larger id. */
  function InsertById(m: Marca, ms: seq<Marca>): (r: seq<Marca>)
    requires SortedById(ms)
    ensures SortedById(r)
    ensures multiset(r) == multiset(ms) + multiset{m}
    ensures |r| == |ms| + 1
  {
    if ms == [] || m.idmarca <= ms[0].idmarca then [m] + ms
    else
      var rest := InsertById(m, ms[1..]);
      InsertStep(m, ms, rest);
      [ms[0]] + rest
  }

  /** Keeping the head in front of the insertion into the tail keeps the
      order and adds exactly `m`. */
  lemma InsertStep(m: Marca, ms: seq<Marca>, rest: seq<Marca>)
    requires SortedById(ms) && |ms| > 0 && ms[0].idmarca < m.idmarca
    requires SortedById(rest) && multiset(rest) == multiset(ms[1..]) + multiset{m}
    ensures SortedById([ms[0]] + rest)
    ensures multiset([ms[0]] + rest) == multiset(ms) + multiset{m}
  {
    assert ms == [ms[0]] + ms[1..];
    HeadBelowRest(ms[0], m, ms[1..], rest);
  }

  /** A key below `m` and below every brand of `ms` stays below every brand
      of any rearrangement of `ms` with `m` added. */
  lemma HeadBelowRest(h: Marca, m: Marca, ms: seq<Marca>, rest: seq<Marca>)
    requires h.idmarca <= m.idmarca
    requires forall x :: x in ms ==> h.idmarca <= x.idmarca
    requires multiset(rest) == multiset(ms) + multiset{m}
    ensures forall j :: 0 <= j < |rest| ==> h.idmarca <= rest[j].idmarca
  {
    forall j | 0 <= j < |rest| ensures h.idmarca <= rest[j].idmarca {
      assert rest[j] in multiset(rest);
      assert rest[j] == m || rest[j] in multiset(ms);
    }
  }

  /** `marcasDB.sort((a, b) => a.idmarca - b.idmarca)`: the same brands in
      ascending id order. */
  function SortById(ms: seq<Marca>): (r: seq<Marca>)
    ensures SortedById(r)
    ensures multiset(r) == multiset(ms)
    ensures |r| == |ms|
  {
    if ms == [] then []
    else
      assert ms == [ms[0]] + ms[1..];
      InsertById(ms[0], SortById(ms[1..]))
  }

  /** The head of the sorted list has the smallest id of all brands. */
  lemma SortedHeadIsMinimum(ms: seq<Marca>, m: Marca)
    requires m in ms
    ensures |SortById(ms)| > 0
    ensures SortById(ms)[0].idmarca <= m.idmarca
  {
    var r := SortById(ms);
    assert m in multiset(ms);
    assert m in multiset(r);
    var j :| 0 <= j < |r| && r[j] == m;
  }

  /** JavaScript truthiness of the selected brand: no selection and id 0
      are both "nothing selected". */
  predicate Selected(sel: Option<int>) {
    sel.Some? && sel.value != 0
  }

  /** The selection after `carregarMarcas`: the first sorted brand when
      brands exist and nothing is selected yet; otherwise unchanged. */
  function SelecaoInicial(sorted: seq<Marca>, sel: Option<int>): (r: Option<int>)
    ensures Selected(sel) ==> r == sel
    ensures !Selected(sel) && |sorted| > 0 ==> r == Some(sorted[0].idmarca)
    ensures sorted == [] ==> r == sel
  {
    if |sorted| > 0 && !Selected(sel) then Some(sorted[0].idmarca) else sel
  }

  /** Loading brands with nothing selected selects the smallest id. */
  lemma LoadSelectsSmallestId(ms: seq<Marca>, sel: Option<int>)
    requires |ms| > 0 && !Selected(sel)
    ensures var r := SelecaoInicial(SortById(ms), sel);
            r.Some? && (exists m :: m in ms && m.idmarca == r.value)
            && forall m :: m in ms ==> r.value <= m.idmarca
  {
    var sorted := SortById(ms);
    assert sorted[0] in multiset(sorted);
    forall m | m in ms ensures sorted[0].idmarca <= m.idmarca {
      SortedHeadIsMinimum(ms, m);
    }
  }

  /** The discounts shown: those `load` returns for the selected brand, or
      none when nothing is selected. `load` stands for the database query. */
  function DescontosVisiveis(sel: Option<int>, load: int -> seq<Desconto>): (r: seq<Desconto>)
    ensures !Selected(sel) ==> r == []
    ensures Selected(sel) ==> r == load(sel.value)
  {
    if Selected(sel) then load(sel.value) else []
  }
}
