/** `processarExcel` after the workbook has been decoded (source:
    src/lib/excelProcessor.ts): locate the header row, map the columns, and
    build one `Componente` per data row. The sheet arrives as a grid of
    cells, one sequence per spreadsheet row. */
module ExcelProcessor {
  import opened Wrappers
  import opened Text
  import opened Cleaning
  import opened Types
  import opened Mapper

  type Grid = seq<seq<Cell>>

  /** Only the first rows are searched for the header. */
  const HeaderScanLimit: nat := 50

  /** Some cell of the row, lower-cased, contains `w`. This stands for
      `JSON.stringify(row).toLowerCase().includes(w)`: the searched words
      hold no quote or comma, so they cannot straddle two cells. */
  predicate RowMentions(row: seq<Cell>, w: string) {
    exists j :: 0 <= j < |row| && row[j].Value? && Contains(ToLower(row[j].text), w)
  }

  /** The header test: "referencia" or "ref", or both "codigo" and
      "descricao". */
  predicate IsHeaderRow(row: seq<Cell>) {
    RowMentions(row, "referencia") || RowMentions(row, "ref")
    || (RowMentions(row, "codigo") && RowMentions(row, "descricao"))
  }

  function Min(a: nat, b: nat): nat {
    if a < b then a else b
  }

  /** The scan from row `from` up to (not including) `limit`. */
  function ScanHeader(rows: Grid, from: nat, limit: nat): (r: Option<nat>)
    requires limit <= |rows|
    ensures r.Some? ==> from <= r.value < limit && IsHeaderRow(rows[r.value])
                        && forall j :: from <= j < r.value ==> !IsHeaderRow(rows[j])
    ensures r.None? ==> forall j :: from <= j < limit ==> !IsHeaderRow(rows[j])
    decreases limit - from
  {
    if from >= limit then None
    else if IsHeaderRow(rows[from]) then Some(from)
    else ScanHeader(rows, from + 1, limit)
  }

  /** `linhaHeaderIdx`: the first of the first 50 rows that passes the
      header test, or row 0 when none does. */
  function HeaderIndex(rows: Grid): (h: nat)
    ensures h == 0 || h < |rows|
    ensures h < Min(|rows|, HeaderScanLimit) ==> IsHeaderRow(rows[h])
                                                 || forall j :: 0 <= j < Min(|rows|, HeaderScanLimit) ==> !IsHeaderRow(rows[j])
    ensures forall j :: 0 <= j < h ==> !IsHeaderRow(rows[j])
    ensures h > 0 ==> h < Min(|rows|, HeaderScanLimit) && IsHeaderRow(rows[h])
  {
    match ScanHeader(rows, 0, Min(|rows|, HeaderScanLimit))
    case Some(i) => i
    case None => 0
  }

  /** The header texts: every cell as text, trimmed; an absent cell gives
      the empty string. */
  function HeadersOf(row: seq<Cell>): (hs: seq<string>)
    ensures |hs| == |row|
    ensures forall i :: 0 <= i < |row| ==> hs[i] == (if row[i].Missing? then "" else Trim(row[i].text))
  {
    seq(|row|, i requires 0 <= i < |row| => if row[i].Missing? then "" else Trim(row[i].text))
  }

  /** The column a field was mapped to, if any. */
  function Lookup(m: map<Field, nat>, f: Field): Option<nat> {
    if f in m then Some(m[f]) else None
  }

  /** `getVal`: the cell in a mapped column; an unmapped field, or a column
      past the end of the row, reads as absent. */
  function CellAt(row: seq<Cell>, idx: Option<nat>): (c: Cell)
    ensures idx.None? ==> c.Missing?
    ensures idx.Some? && idx.value >= |row| ==> c.Missing?
    ensures idx.Some? && idx.value < |row| ==> c == row[idx.value]
  {
    if idx.Some? && idx.value < |row| then row[idx.value] else Missing
  }

  /** The optional fields of `c` are read from their columns of `row`:
      text fields through `limparValor`, number fields through
      `paraNumero`, and the unit defaults to "UN" when its cell cleans to
      null. */
  predicate CellsOf(row: seq<Cell>, m: map<Field, nat>, c: Componente) {
    var unidade := LimparValor(CellAt(row, Lookup(m, Unidade)));
    && c.descricao == LimparValor(CellAt(row, Lookup(m, Descricao)))
    && c.familia == LimparValor(CellAt(row, Lookup(m, Familia)))
    && c.ean == LimparValor(CellAt(row, Lookup(m, Ean)))
    && c.grupoDesconto == LimparValor(CellAt(row, Lookup(m, GrupoDesconto)))
    && c.precoTabela == ParaNumero(CellAt(row, Lookup(m, PrecoTabela)))
    && c.quantidadeMinima == ParaNumero(CellAt(row, Lookup(m, QuantidadeMinima)))
    && c.peso == ParaNumero(CellAt(row, Lookup(m, Peso)))
    && c.unidade == (if unidade.Some? then unidade else Some("UN"))
  }

  /** One data row: None when its reference cleans to null (the row is
      ignored); otherwise the record, with unit "UN" when the unit cell
      cleans to null. */
  function ExtractRow(row: seq<Cell>, m: map<Field, nat>, idmarca: int): (r: Option<Componente>)
    requires Referencia in m
    ensures r.None? <==> LimparValor(CellAt(row, Some(m[Referencia]))).None?
    ensures r.Some? ==> r.value.idmarca == idmarca
                        && r.value.referencia == LimparValor(CellAt(row, Some(m[Referencia]))).value
                        && r.value.unidade.Some? && |r.value.unidade.value| > 0
    ensures r.Some? ==> CellsOf(row, m, r.value)
  {
    var ref := LimparValor(CellAt(row, Some(m[Referencia])));
    if ref.None? then None
    else
      var get := (f: Field) => CellAt(row, Lookup(m, f));
      var unidade := LimparValor(get(Unidade));
      Some(Componente(
        idmarca,
        ref.value,
        LimparValor(get(Descricao)),
        LimparValor(get(Familia)),
        LimparValor(get(Ean)),
        ParaNumero(get(PrecoTabela)),
        LimparValor(get(GrupoDesconto)),
        Some(if unidade.Some? then unidade.value else "UN"),
        ParaNumero(get(QuantidadeMinima)),
        ParaNumero(get(Peso))))
  }

  /** A field the sheet has no column for is null in every record, and the
      unit then defaults to "UN". */
  lemma ExtractRowUnmapped(row: seq<Cell>, m: map<Field, nat>, idmarca: int)
    requires Referencia in m
    ensures var r := ExtractRow(row, m, idmarca);
            r.Some? ==>
              (Descricao !in m ==> r.value.descricao.None?)
              && (Familia !in m ==> r.value.familia.None?)
              && (Ean !in m ==> r.value.ean.None?)
              && (PrecoTabela !in m ==> r.value.precoTabela.None?)
              && (GrupoDesconto !in m ==> r.value.grupoDesconto.None?)
              && (Unidade !in m ==> r.value.unidade == Some("UN"))
              && (QuantidadeMinima !in m ==> r.value.quantidadeMinima.None?)
              && (Peso !in m ==> r.value.peso.None?)
  {
  }

  /** A record is well formed for a brand: that brand's id, a non-empty
      reference and a non-empty unit. */
  predicate WellFormedRecord(c: Componente, idmarca: int) {
    c.idmarca == idmarca && |c.referencia| > 0 && c.unidade.Some? && |c.unidade.value| > 0
  }

  /** The records of the given data rows, in row order. Empty rows are
      skipped without being counted. */
  function RecordsOf(rows: Grid, m: map<Field, nat>, idmarca: int): (cs: seq<Componente>)
    requires Referencia in m
    ensures |cs| <= |rows|
    ensures forall k :: 0 <= k < |cs| ==> WellFormedRecord(cs[k], idmarca)
  {
    if |rows| == 0 then []
    else RecordsOf(rows[..|rows| - 1], m, idmarca) + RowRecords(rows[|rows| - 1], m, idmarca)
  }

  /** `linhasIgnoradas`: the non-empty rows whose reference cleans to null. */
  function IgnoredOf(rows: Grid, m: map<Field, nat>): nat
    requires Referencia in m
  {
    if |rows| == 0 then 0
    else IgnoredOf(rows[..|rows| - 1], m) + RowIgnored(rows[|rows| - 1], m)
  }

  /** The number of non-empty rows. */
  function NonEmptyRows(rows: Grid): nat {
    if |rows| == 0 then 0
    else NonEmptyRows(rows[..|rows| - 1]) + (if |rows[|rows| - 1]| > 0 then 1 else 0)
  }

  /** Every non-empty row either yields a record or is counted as ignored. */
  lemma {:induction false} RowsAccountedFor(rows: Grid, m: map<Field, nat>, idmarca: int)
    requires Referencia in m
    ensures |RecordsOf(rows, m, idmarca)| + IgnoredOf(rows, m) == NonEmptyRows(rows)
  {
    if |rows| > 0 {
      RowsAccountedFor(rows[..|rows| - 1], m, idmarca);
      RowCases(rows[|rows| - 1], m, idmarca);
    }
  }

  /** Record extraction keeps row order: the records of two consecutive
      blocks of rows are the records of the first block followed by those
      of the second. */
  lemma {:induction false} RecordsOfAppend(a: Grid, b: Grid, m: map<Field, nat>, idmarca: int)
    requires Referencia in m
    ensures RecordsOf(a + b, m, idmarca) == RecordsOf(a, m, idmarca) + RecordsOf(b, m, idmarca)
    decreases |b|
  {
    if |b| == 0 {
      assert a + b == a;
    } else {
      var b' := b[..|b| - 1];
      assert (a + b)[..|a + b| - 1] == a + b';
      assert (a + b)[|a + b| - 1] == b[|b| - 1];
      RecordsOfAppend(a, b', m, idmarca);
    }
  }

  /** A single non-empty row yields its record or nothing. */
  lemma RecordsOfOne(row: seq<Cell>, m: map<Field, nat>, idmarca: int)
    requires Referencia in m
    ensures RecordsOf([row], m, idmarca)
            == if |row| == 0 || ExtractRow(row, m, idmarca).None? then [] else [ExtractRow(row, m, idmarca).value]
  {
    assert [row][..0] == [];
  }

  /** The records one row contributes: none for an empty row or an
      ignored one, else its record. */
  function RowRecords(row: seq<Cell>, m: map<Field, nat>, idmarca: int): (cs: seq<Componente>)
    requires Referencia in m
    ensures |cs| <= 1
    ensures forall k :: 0 <= k < |cs| ==> WellFormedRecord(cs[k], idmarca)
  {
    if |row| == 0 then []
    else match ExtractRow(row, m, idmarca)
      case Some(c) => [c]
      case None => []
  }

  /** Whether one row counts as ignored. */
  function RowIgnored(row: seq<Cell>, m: map<Field, nat>): nat
    requires Referencia in m
  {
    if |row| > 0 && LimparValor(CellAt(row, Some(m[Referencia]))).None? then 1 else 0
  }

  /** A non-empty row whose reference cleans to text yields exactly its
      record; any other row yields none, and only a non-empty one is
      counted as ignored. */
  lemma RowCases(row: seq<Cell>, m: map<Field, nat>, idmarca: int)
    requires Referencia in m
    ensures |RowRecords(row, m, idmarca)| + RowIgnored(row, m) == if |row| > 0 then 1 else 0
    ensures |row| > 0 && LimparValor(CellAt(row, Some(m[Referencia]))).Some? ==>
              ExtractRow(row, m, idmarca).Some? && RowRecords(row, m, idmarca) == [ExtractRow(row, m, idmarca).value]
    ensures !(|row| > 0 && LimparValor(CellAt(row, Some(m[Referencia]))).Some?) ==> RowRecords(row, m, idmarca) == []
    ensures RowIgnored(row, m) == if |row| > 0 && LimparValor(CellAt(row, Some(m[Referencia]))).None? then 1 else 0
  {
  }

  /** Extending the block of rows `start..i` by row `i` appends that row's
      record, or counts it as ignored, or (for an empty row) changes
      nothing. */
  lemma ExtendRows(rows: Grid, start: nat, i: nat, m: map<Field, nat>, idmarca: int)
    requires Referencia in m
    requires start <= i < |rows|
    ensures RecordsOf(rows[start..i + 1], m, idmarca) == RecordsOf(rows[start..i], m, idmarca) + RowRecords(rows[i], m, idmarca)
    ensures IgnoredOf(rows[start..i + 1], m) == IgnoredOf(rows[start..i], m) + RowIgnored(rows[i], m)
  {
    var next := rows[start..i + 1];
    assert next[..|next| - 1] == rows[start..i];
    assert next[|next| - 1] == rows[i];
  }

  /** The extraction loop `for (let i = startRow; i < rows.length; i++)`. */
  method ExtractRows(rows: Grid, start: nat, m: map<Field, nat>, idmarca: int)
    returns (componentes: seq<Componente>, ignoradas: nat)
    requires Referencia in m
    requires start <= |rows|
    ensures componentes == RecordsOf(rows[start..], m, idmarca)
    ensures ignoradas == IgnoredOf(rows[start..], m)
  {
    componentes := [];
    ignoradas := 0;
    var i := start;
    while i < |rows|
      invariant start <= i <= |rows|
      invariant componentes == RecordsOf(rows[start..i], m, idmarca)
      invariant ignoradas == IgnoredOf(rows[start..i], m)
    {
      var row := rows[i];
      ExtendRows(rows, start, i, m, idmarca);
      RowCases(row, m, idmarca);
      if |row| > 0 {
        var ref := LimparValor(CellAt(row, Some(m[Referencia])));
        if ref.None? {
          ignoradas := ignoradas + 1;
        } else {
          var record := ExtractRow(row, m, idmarca);
          componentes := componentes + [record.value];
        }
      }
      i := i + 1;
    }
    assert rows[start..i] == rows[start..];
  }

  datatype ProcessarExcelResult = ProcessarExcelResult(
    componentes: seq<Componente>,
    erros: seq<string>,
    linhasProcessadas: nat,
    linhasIgnoradas: nat)

  const FicheiroVazio: string := "Ficheiro vazio"

  /** The header texts and the column mapping of a grid with at least two
      rows. */
  function MappingOf(rows: Grid, config: MarcaConfig): MapResult
    requires |rows| >= 2
  {
    MapearColunas(HeadersOf(rows[HeaderIndex(rows)]), config)
  }

  /** `processarExcel` on a decoded sheet. A grid with fewer than two rows
      fails with "Ficheiro vazio"; an unmapped reference column fails with
      the mapping errors; either way no component is returned. Otherwise
      the rows after the header row are extracted. */
  function ProcessarExcel(rows: Grid, config: MarcaConfig, idmarca: int): (r: ProcessarExcelResult)
    ensures |rows| < 2 ==> r == ProcessarExcelResult([], [FicheiroVazio], 0, 0)
    ensures r.erros != [] <==> |rows| < 2 || Referencia !in MappingOf(rows, config).mapeamento
    ensures r.erros != [] ==> r.componentes == [] && r.linhasProcessadas == 0 && r.linhasIgnoradas == 0
    ensures r.linhasProcessadas == |r.componentes|
    ensures |r.componentes| + r.linhasIgnoradas < |rows| || |rows| < 2
    ensures forall k :: 0 <= k < |r.componentes| ==> WellFormedRecord(r.componentes[k], idmarca)
  {
    if |rows| < 2 then ProcessarExcelResult([], [FicheiroVazio], 0, 0)
    else
      var mr := MappingOf(rows, config);
      if Referencia !in mr.mapeamento then ProcessarExcelResult([], mr.erros, 0, 0)
      else
        var data := rows[HeaderIndex(rows) + 1..];
        var comps := RecordsOf(data, mr.mapeamento, idmarca);
        RowsAccountedFor(data, mr.mapeamento, idmarca);
        NonEmptyRowsBound(data);
        ProcessarExcelResult(comps, mr.erros, |comps|, IgnoredOf(data, mr.mapeamento))
  }

  lemma {:induction false} NonEmptyRowsBound(rows: Grid)
    ensures NonEmptyRows(rows) <= |rows|
  {
    if |rows| > 0 {
      NonEmptyRowsBound(rows[..|rows| - 1]);
    }
  }

  /** The extracted records are those of the rows after the header row,
      in order, when the reference column is mapped, and none otherwise. */
  lemma ProcessarExcelRecords(rows: Grid, config: MarcaConfig, idmarca: int)
    requires |rows| >= 2
    ensures Referencia in MappingOf(rows, config).mapeamento ==>
              ProcessarExcel(rows, config, idmarca).componentes
              == RecordsOf(rows[HeaderIndex(rows) + 1..], MappingOf(rows, config).mapeamento, idmarca)
    ensures Referencia !in MappingOf(rows, config).mapeamento ==> ProcessarExcel(rows, config, idmarca).componentes == []
  {
  }
}
