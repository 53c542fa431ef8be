/** The brand registry (source: src/config/marcas.ts): for each brand id
    with an import configuration, the sheet to read and the table of column
    aliases the mapper consults. */
module Marcas {
  import opened Wrappers
  import opened Types

  /** Schneider Electric's aliases, in declaration order. */
  const SchneiderAliases: seq<(string, string)> := [
    ("Referência", "referencia"),
    ("Ref", "referencia"),
    ("Ref.", "referencia"),
    ("Descrição", "descricao"),
    ("Descripcion", "descricao"),
    ("Descripción", "descricao"),
    ("Actividad", "familia"),
    ("Actividade", "familia"),
    ("Atividade", "familia"),
    ("Família", "familia"),
    ("Familia", "familia"),
    ("Fam", "familia"),
    ("Fam.", "familia"),
    ("Fam/", "familia"),
    ("EAN-13", "ean"),
    ("EAN", "ean"),
    ("PVP", "preco_tabela"),
    ("Precio", "preco_tabela"),
    ("Preço", "preco_tabela"),
    ("COD MPG", "grupo_desconto"),
    ("Unidad", "unidade"),
    ("Unidade", "unidade"),
    ("Quantidade indivisible", "quantidade_minima"),
    ("Cantidad indivisible", "quantidade_minima"),
    ("Peso Bruto", "peso"),
    ("Peso", "peso")
  ]

  const Schneider: MarcaConfig := MarcaConfig(1, "Schneider Electric", "TP", SchneiderAliases)

  /** `MARCAS_PROCESSAMENTO`: brand id to configuration. */
  const Registry: map<int, MarcaConfig> := map[1 := Schneider]

  /** `getMarcaConfig`: the registered configuration, or None. */
  function GetMarcaConfig(idmarca: int): (r: Option<MarcaConfig>)
    ensures r.Some? <==> idmarca in Registry
    ensures r.Some? ==> r.value == Registry[idmarca] && r.value.id == idmarca
  {
    if idmarca in Registry then Some(Registry[idmarca]) else None
  }

  /** `hasMarcaConfig`: whether the id is a key of the registry. */
  function HasMarcaConfig(idmarca: int): (r: bool)
    ensures r <==> idmarca in Registry
  {
    idmarca in Registry
  }

  /** `hasMarcaConfig` and `getMarcaConfig` agree on every id. */
  lemma HasIffGet(idmarca: int)
    ensures HasMarcaConfig(idmarca) <==> GetMarcaConfig(idmarca).Some?
  {
  }

  /** Only Schneider Electric, id 1, is registered, read from sheet "TP". */
  lemma RegistryContents(idmarca: int)
    ensures GetMarcaConfig(idmarca).Some? <==> idmarca == 1
    ensures idmarca == 1 ==>
              GetMarcaConfig(idmarca).value.sheetName == "TP"
              && GetMarcaConfig(idmarca).value.nome == "Schneider Electric"
  {
  }

  /** Every registry key is the id of the configuration stored under it. */
  lemma RegistryKeysAreIds()
    ensures forall k :: k in Registry ==> Registry[k].id == k
  {
  }

  /** Every alias of every registered brand targets one of the nine
      database columns. */
  lemma AliasTargetsAreFields()
    ensures forall k, j :: k in Registry && 0 <= j < |Registry[k].colunaMap|
              ==> FieldOf(Registry[k].colunaMap[j].1).Some?
  {
    forall j | 0 <= j < |SchneiderAliases| ensures FieldOf(SchneiderAliases[j].1).Some? {
      var t := SchneiderAliases[j].1;
      assert t in {"referencia", "descricao", "familia", "ean", "preco_tabela",
                   "grupo_desconto", "unidade", "quantidade_minima", "peso"};
    }
  }
}
