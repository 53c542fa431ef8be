/** The upload list (source: src/components/UploadSection.tsx): which
    dropped files are accepted, how entries are added, removed and given a
    brand, and the status each file ends in after `processarTodos`.
    A file is given by its name and its decoded sheet; the store answers
    for file `i` are `stores(i)`. */
module Upload {
  import opened Wrappers
  import opened Text
  import opened Types
  import opened Marcas
  import opened ExcelProcessor
  import opened Database

  /** A file entry's status; `Falha` is the source's "erro". */
  datatype Status = AguardandoMarca | Pendente | Processando | Sucesso | Falha

  /** A chosen file: its name and the grid of its selected sheet. */
  datatype Ficheiro = Ficheiro(nome: string, folha: Grid)

  /** `FicheiroInfo` (the transient progress report is not kept). */
  datatype FicheiroInfo = FicheiroInfo(
    file: Ficheiro,
    marca: Option<Marca>,
    status: Status,
    resultado: Option<ImportResult>,
    erroMensagem: Option<string>)

  const ConfigEmFalta: string := "Configuração de mapeamento não encontrada para esta marca"
  const NenhumComponenteEncontrado: string := "Nenhum componente encontrado"
  const FalhaTotal: string := "Falha ao inserir todos os registos. "

  /** The drop filter: the name ends in ".xlsx" or ".xls". */
  predicate IsPlanilha(nome: string) {
    EndsWith(nome, ".xlsx") || EndsWith(nome, ".xls")
  }

  /** The dropped files that are kept, in drop order. */
  function FiltrarLargados(files: seq<Ficheiro>): (r: seq<Ficheiro>)
    ensures forall f :: f in r <==> f in files && IsPlanilha(f.nome)
    ensures |r| <= |files|
  {
    if files == [] then []
    else (if IsPlanilha(files[0].nome) then [files[0]] else []) + FiltrarLargados(files[1..])
  }

  /** Filtering a drop of two groups filters each group in place, so the
      kept files keep their relative order. */
  lemma {:induction false} FiltrarAppend(a: seq<Ficheiro>, b: seq<Ficheiro>)
    ensures FiltrarLargados(a + b) == FiltrarLargados(a) + FiltrarLargados(b)
  {
    if a == [] {
      assert a + b == b;
    } else {
      assert (a + b)[0] == a[0] && (a + b)[1..] == a[1..] + b;
      FiltrarAppend(a[1..], b);
    }
  }

  /** A drop of spreadsheets only is kept whole. */
  lemma {:induction false} FiltrarKeepsSpreadsheets(files: seq<Ficheiro>)
    requires forall i :: 0 <= i < |files| ==> IsPlanilha(files[i].nome)
    ensures FiltrarLargados(files) == files
  {
    if files != [] {
      FiltrarKeepsSpreadsheets(files[1..]);
    }
  }

  /** A freshly added entry: no brand yet, waiting for one. */
  function NovoFicheiro(f: Ficheiro): FicheiroInfo {
    FicheiroInfo(f, None, AguardandoMarca, None, None)
  }

  /** `adicionarFicheiros`: each file in turn is appended as a new entry. */
  function AdicionarFicheiros(lista: seq<FicheiroInfo>, files: seq<Ficheiro>): (r: seq<FicheiroInfo>)
    ensures |r| == |lista| + |files|
    ensures r[..|lista|] == lista
    ensures forall j :: 0 <= j < |files| ==> r[|lista| + j] == NovoFicheiro(files[j])
    decreases |files|
  {
    if files == [] then lista
    else AdicionarFicheiros(lista + [NovoFicheiro(files[0])], files[1..])
  }

  /** `removerFicheiro`: keeps every entry whose position is not `index`. */
  function RemoverFicheiro(lista: seq<FicheiroInfo>, index: int): (r: seq<FicheiroInfo>)
    ensures 0 <= index < |lista| ==> r == lista[..index] + lista[index + 1..]
    ensures !(0 <= index < |lista|) ==> r == lista
  {
    if lista == [] then []
    else
      assert lista == [lista[0]] + lista[1..];
      (if index == 0 then [] else [lista[0]]) + RemoverFicheiro(lista[1..], index - 1)
  }

  /** Removing a file just added restores the list. */
  lemma RemoveAfterAdd(lista: seq<FicheiroInfo>, f: Ficheiro)
    ensures RemoverFicheiro(AdicionarFicheiros(lista, [f]), |lista|) == lista
  {
    var r := AdicionarFicheiros(lista, [f]);
    assert r[..|lista|] == lista;
  }

  /** An entry `processarTodos` will process: pending, with a brand. */
  predicate Elegivel(f: FicheiroInfo) {
    f.status == Pendente && f.marca.Some?
  }

  /** `handleSelectMarca`: the entry the brand dialog was opened for (if
      any) gets the brand and becomes pending; all others are kept. */
  function SelecionarMarca(lista: seq<FicheiroInfo>, alvo: Option<int>, marca: Marca): (r: seq<FicheiroInfo>)
    ensures |r| == |lista|
    ensures forall i :: 0 <= i < |lista| && alvo != Some(i) ==> r[i] == lista[i]
    ensures forall i :: 0 <= i < |lista| && alvo == Some(i) ==>
              r[i].marca == Some(marca) && r[i].status == Pendente && r[i].file == lista[i].file
              && r[i].resultado == lista[i].resultado && r[i].erroMensagem == lista[i].erroMensagem
  {
    seq(|lista|, i requires 0 <= i < |lista| =>
      if alvo == Some(i) then lista[i].(marca := Some(marca), status := Pendente) else lista[i])
  }

  /** Choosing a brand makes exactly the targeted entry eligible, whatever
      its previous status. */
  lemma SelectMakesEligible(lista: seq<FicheiroInfo>, i: int, marca: Marca)
    requires 0 <= i < |lista|
    ensures Elegivel(SelecionarMarca(lista, Some(i), marca)[i])
    ensures forall j :: 0 <= j < |lista| && j != i ==>
              Elegivel(SelecionarMarca(lista, Some(i), marca)[j]) == Elegivel(lista[j])
  {
  }

  function Falhar(f: FicheiroInfo, msg: string): FicheiroInfo {
    f.(status := Falha, erroMensagem := Some(msg))
  }

  /** The outcome of one eligible file in `processarTodos`: a missing
      brand configuration, a sheet yielding no component and a run that
      lost every record all end in "erro" with a message; otherwise the
      mapping errors and the store messages are kept, and the file is a
      success exactly when no record was lost. */
  function ProcessarFicheiro(f: FicheiroInfo, store: Store): (r: FicheiroInfo)
    requires f.marca.Some?
    ensures r.file == f.file && r.marca == f.marca
    ensures r.status == Sucesso || r.status == Falha
    ensures GetMarcaConfig(f.marca.value.idmarca).None? ==> r == Falhar(f, ConfigEmFalta)
    ensures r.status == Sucesso <==>
              var id := f.marca.value.idmarca;
              GetMarcaConfig(id).Some?
              && var comps := ProcessarExcel(f.file.folha, GetMarcaConfig(id).value, id).componentes;
                 comps != [] && InsertResult(comps, store).erros == 0
    ensures r.status == Sucesso ==>
              var id := f.marca.value.idmarca;
              r.resultado.Some?
              && r.resultado.value.erros == 0
              && GetMarcaConfig(id).Some?
              && r.resultado.value.sucesso == |ProcessarExcel(f.file.folha, GetMarcaConfig(id).value, id).componentes|
    ensures var id := f.marca.value.idmarca;
            GetMarcaConfig(id).Some? ==>
              var px := ProcessarExcel(f.file.folha, GetMarcaConfig(id).value, id);
              var juntos := Join(px.erros, "; ");
              px.componentes == [] ==>
                r == Falhar(f, if juntos == "" then NenhumComponenteEncontrado else juntos)
    ensures var id := f.marca.value.idmarca;
            GetMarcaConfig(id).Some? ==>
              var px := ProcessarExcel(f.file.folha, GetMarcaConfig(id).value, id);
              var res := InsertResult(px.componentes, store);
              px.componentes != [] && res.erros == |px.componentes| ==>
                r == Falhar(f, FalhaTotal + Join(res.mensagens, " | "))
    ensures var id := f.marca.value.idmarca;
            GetMarcaConfig(id).Some? ==>
              var px := ProcessarExcel(f.file.folha, GetMarcaConfig(id).value, id);
              var res := InsertResult(px.componentes, store);
              px.componentes != [] && res.erros < |px.componentes| ==>
                r.resultado == Some(res.(mensagens := px.erros + res.mensagens))
                && r.erroMensagem == f.erroMensagem
                && r.status == (if res.erros > 0 then Falha else Sucesso)
  {
    var id := f.marca.value.idmarca;
    var cfg := GetMarcaConfig(id);
    if cfg.None? then Falhar(f, ConfigEmFalta)
    else
      var px := ProcessarExcel(f.file.folha, cfg.value, id);
      if px.componentes == [] then
        var juntos := Join(px.erros, "; ");
        Falhar(f, if juntos == "" then NenhumComponenteEncontrado else juntos)
      else
        var res := InsertResult(px.componentes, store);
        if res.erros == |px.componentes| then
          Falhar(f, FalhaTotal + Join(res.mensagens, " | "))
        else
          assert res.erros == 0 ==> res.sucesso == |px.componentes| by {
            if res.erros == 0 {
              NoErrorsStoresAll(px.componentes, store);
            }
          }
          f.(status := if res.erros > 0 then Falha else Sucesso,
             resultado := Some(res.(mensagens := px.erros + res.mensagens)))
  }

  /** A sheet with fewer than two rows fails with "Ficheiro vazio". */
  lemma EmptySheetFails(f: FicheiroInfo, store: Store)
    requires f.marca.Some? && GetMarcaConfig(f.marca.value.idmarca).Some?
    requires |f.file.folha| < 2
    ensures ProcessarFicheiro(f, store) == Falhar(f, FicheiroVazio)
  {
  }

  /** `processarTodos`: every eligible entry is processed, in list order;
      every other entry is left as it was. Afterwards no entry is
      eligible, so a second run changes nothing. */
  method ProcessarTodos(lista: seq<FicheiroInfo>, stores: nat -> Store) returns (r: seq<FicheiroInfo>)
    ensures |r| == |lista|
    ensures forall i :: 0 <= i < |lista| && !Elegivel(lista[i]) ==> r[i] == lista[i]
    ensures forall i :: 0 <= i < |lista| && Elegivel(lista[i]) ==> r[i] == ProcessarFicheiro(lista[i], stores(i))
    ensures forall i :: 0 <= i < |r| ==> !Elegivel(r[i])
  {
    r := lista;
    var i := 0;
    while i < |lista|
      invariant i <= |lista| && |r| == |lista|
      invariant forall j :: 0 <= j < i && !Elegivel(lista[j]) ==> r[j] == lista[j]
      invariant forall j :: 0 <= j < i && Elegivel(lista[j]) ==> r[j] == ProcessarFicheiro(lista[j], stores(j))
      invariant forall j :: i <= j < |lista| ==> r[j] == lista[j]
      invariant forall j :: 0 <= j < i ==> !Elegivel(r[j])
    {
      if Elegivel(lista[i]) {
        r := r[i := ProcessarFicheiro(lista[i], stores(i))];
      }
      i := i + 1;
    }
  }
}
