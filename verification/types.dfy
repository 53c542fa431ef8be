/** The records the import pipeline passes around (source:
    src/types/index.ts and the `CamposBD` union of
    src/lib/excelProcessor.ts). */
module Types {
  import opened Wrappers
  import opened JsNumbers

  /** The nine database columns a spreadsheet column can be mapped to. */
  datatype Field =
    | Referencia | Descricao | Familia | Ean | PrecoTabela
    | GrupoDesconto | Unidade | QuantidadeMinima | Peso

  /** The column name of a field, as written in the brand tables. */
  function FieldName(f: Field): string {
    match f
    case Referencia => "referencia"
    case Descricao => "descricao"
    case Familia => "familia"
    case Ean => "ean"
    case PrecoTabela => "preco_tabela"
    case GrupoDesconto => "grupo_desconto"
    case Unidade => "unidade"
    case QuantidadeMinima => "quantidade_minima"
    case Peso => "peso"
  }

  /** Reads a column name back as a field; None for any other name. */
  function FieldOf(name: string): (r: Option<Field>)
    ensures r.Some? ==> FieldName(r.value) == name
  {
    if name == "referencia" then Some(Referencia)
    else if name == "descricao" then Some(Descricao)
    else if name == "familia" then Some(Familia)
    else if name == "ean" then Some(Ean)
    else if name == "preco_tabela" then Some(PrecoTabela)
    else if name == "grupo_desconto" then Some(GrupoDesconto)
    else if name == "unidade" then Some(Unidade)
    else if name == "quantidade_minima" then Some(QuantidadeMinima)
    else if name == "peso" then Some(Peso)
    else None
  }

  /** Every field's name reads back as that field, so distinct fields have
      distinct names. */
  lemma FieldNameRoundTrip(f: Field)
    ensures FieldOf(FieldName(f)) == Some(f)
  {
  }

  lemma FieldNameInjective(f: Field, g: Field)
    requires FieldName(f) == FieldName(g)
    ensures f == g
  {
    FieldNameRoundTrip(f);
    FieldNameRoundTrip(g);
  }

  /** A catalogue row (`Componente`); `referencia` is the only text field
      that cannot be null. */
  datatype Componente = Componente(
    idmarca: int,
    referencia: string,
    descricao: Option<string>,
    familia: Option<string>,
    ean: Option<string>,
    precoTabela: Option<JsNumber>,
    grupoDesconto: Option<string>,
    unidade: Option<string>,
    quantidadeMinima: Option<JsNumber>,
    peso: Option<JsNumber>)

  /** A brand as stored in the database (`Marca`). */
  datatype Marca = Marca(idmarca: int, nome: string)

  /** How a brand's spreadsheets are read (`MarcaConfig`). `colunaMap` keeps
      the alias table in its declaration order, which is the order
      `Object.entries` yields it in. */
  datatype MarcaConfig = MarcaConfig(
    id: int,
    nome: string,
    sheetName: string,
    colunaMap: seq<(string, string)>)

  /** The outcome of an ingestion run (`ImportResult`). */
  datatype ImportResult = ImportResult(sucesso: nat, erros: nat, mensagens: seq<string>)

  /** The phases a progress report can be in. */
  datatype Fase = Idle | Lendo | Processando | Inserindo | Concluido | Erro

  /** A progress report (`ProcessingStatus`). */
  datatype ProcessingStatus = ProcessingStatus(
    fase: Fase,
    progresso: int,
    mensagem: string,
    total: Option<nat>,
    atual: Option<nat>)
}
