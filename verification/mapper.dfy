/** `mapearColunas` (source: src/lib/excelProcessor.ts): assigns each of the
    nine database fields at most one spreadsheet column. Fields are taken in
    `CAMPOS_ORDEM` order, and a column claimed by one field is not offered
    to a later one. For each field the tiers are tried in order:
    1. for `familia` only, the first free header that starts with "fam";
    2. the brand's aliases for that field, in table order, each alias first
       by equality and then by containment;
    3. the generic fallback patterns, by containment. */
module Mapper {
  import opened Wrappers
  import opened Text
  import opened Normalization
  import opened Types

  /** `CAMPOS_ORDEM`: the order in which fields claim columns. */
  const CamposOrdem: seq<Field> :=
    [Referencia, Descricao, PrecoTabela, Ean, Familia, GrupoDesconto, Unidade, QuantidadeMinima, Peso]

  /** `FALLBACKS_GENERICOS`: substrings that identify a field's column when
      the brand table does not. */
  function Fallbacks(f: Field): seq<string> {
    match f
    case Referencia => ["referencia", "ref", "codigo", "artigo"]
    case Descricao => ["descricao", "designacao", "description"]
    case Familia => ["familia", "fam", "actividad", "category", "grupo"]
    case Ean => ["ean", "gtin", "barcode"]
    case PrecoTabela => ["pvp", "preco", "price", "eur", "valor"]
    case GrupoDesconto => ["mpg", "desconto"]
    case Unidade => ["unidad", "unit", "un", "emb"]
    case QuantidadeMinima => ["quantidade", "indivisible", "minima", "qtd"]
    case Peso => ["peso", "weight"]
  }

  /** The error reported when no column could be found for `referencia`. */
  const RefError: string :=
    "ERRO: Coluna de Referência não encontrada. Verifique se o ficheiro está correto."

  /** The tests a normalised header can be put to. */
  datatype Matcher =
    | StartsFam                      // starts with "fam"
    | Exact(alias: string)           // equals the normalised alias
    | Partial(alias: string)         // contains the alias; a short alias must be equal
    | AnyOf(patterns: seq<string>)   // contains one of the patterns

  predicate Matches(m: Matcher, h: string) {
    match m
    case StartsFam => StartsWith(h, "fam")
    case Exact(a) => h == a
    case Partial(a) => Contains(h, a) && (|a| >= 3 || h == a)
    case AnyOf(ps) => exists p | p in ps :: Contains(h, p)
  }

  /** Column `i` exists, is not yet claimed, and its header passes `m`. */
  predicate Hit(norms: seq<string>, used: set<nat>, m: Matcher, i: nat) {
    i < |norms| && i !in used && Matches(m, norms[i])
  }

  /** The first column at or after `from` that is a hit. */
  function FirstHit(norms: seq<string>, used: set<nat>, m: Matcher, from: nat): (r: Option<nat>)
    ensures r.Some? ==> from <= r.value && Hit(norms, used, m, r.value)
    ensures r.Some? ==> forall j :: from <= j < r.value ==> !Hit(norms, used, m, j)
    ensures r.None? ==> forall j :: from <= j ==> !Hit(norms, used, m, j)
    decreases |norms| - from
  {
    if from >= |norms| then None
    else if Hit(norms, used, m, from) then Some(from)
    else FirstHit(norms, used, m, from + 1)
  }

  /** The scan `for (let i = 0; i < headers.length; i++)` that skips claimed
      columns and stops at the first hit. */
  function Find(norms: seq<string>, used: set<nat>, m: Matcher): (r: Option<nat>)
    ensures r.Some? ==> Hit(norms, used, m, r.value)
                        && forall j :: 0 <= j < r.value ==> !Hit(norms, used, m, j)
    ensures r.None? <==> forall j :: !Hit(norms, used, m, j)
  {
    FirstHit(norms, used, m, 0)
  }

  /** One alias of the brand table: the first free header equal to it, or
      failing that the first free header containing it. */
  function AliasPick(a: string, norms: seq<string>, used: set<nat>): (r: Option<nat>)
    ensures r.Some? <==> exists i :: Hit(norms, used, Exact(a), i) || Hit(norms, used, Partial(a), i)
    ensures r.Some? ==> Hit(norms, used, Exact(a), r.value)
                        || (Hit(norms, used, Partial(a), r.value) && forall j :: !Hit(norms, used, Exact(a), j))
    ensures r.Some? ==> Contains(norms[r.value], a) && (|a| < 3 ==> norms[r.value] == a)
    ensures (exists i :: Hit(norms, used, Exact(a), i)) ==>
              r.Some? && Hit(norms, used, Exact(a), r.value)
              && forall j :: 0 <= j < r.value ==> !Hit(norms, used, Exact(a), j)
    ensures (forall i :: !Hit(norms, used, Exact(a), i)) && r.Some? ==>
              Hit(norms, used, Partial(a), r.value)
              && forall j :: 0 <= j < r.value ==> !Hit(norms, used, Partial(a), j)
  {
    ContainsSelfAll(norms);
    var e := Find(norms, used, Exact(a));
    if e.Some? then e else Find(norms, used, Partial(a))
  }

  lemma ContainsSelfAll(norms: seq<string>)
    ensures forall i :: 0 <= i < |norms| ==> Contains(norms[i], norms[i])
  {
    forall i | 0 <= i < |norms| ensures Contains(norms[i], norms[i]) {
      ContainsSelf(norms[i]);
    }
  }

  /** Alias `k` of the table targets `field` and finds a free column. */
  predicate Serves(aliases: seq<(string, string)>, k: nat, field: Field, norms: seq<string>, used: set<nat>)
    requires k < |aliases|
  {
    aliases[k].1 == FieldName(field) && AliasPick(Normalize(aliases[k].0), norms, used).Some?
  }

  /** The brand-table tier: aliases that target another field are skipped;
      the first alias that finds a column decides. */
  function ConfigTier(aliases: seq<(string, string)>, field: Field, norms: seq<string>, used: set<nat>): (r: Option<nat>)
    ensures r.Some? ==> r.value < |norms| && r.value !in used
  {
    if |aliases| == 0 then None
    else if aliases[0].1 != FieldName(field) then ConfigTier(aliases[1..], field, norms, used)
    else
      var pick := AliasPick(Normalize(aliases[0].0), norms, used);
      if pick.Some? then pick else ConfigTier(aliases[1..], field, norms, used)
  }

  /** Alias `k` serves the field and no alias before it does. */
  predicate FirstServing(aliases: seq<(string, string)>, k: nat, field: Field, norms: seq<string>, used: set<nat>)
    requires k < |aliases|
  {
    Serves(aliases, k, field, norms, used)
    && forall k' :: 0 <= k' < k ==> !Serves(aliases, k', field, norms, used)
  }

  /** No alias of the table serves the field. */
  predicate NoneServes(aliases: seq<(string, string)>, field: Field, norms: seq<string>, used: set<nat>) {
    forall k :: 0 <= k < |aliases| ==> !Serves(aliases, k, field, norms, used)
  }

  /** The brand-table tier finds nothing exactly when no alias for the field
      finds a column, and otherwise answers with the pick of the first alias
      that does. */
  lemma {:induction false} ConfigTierFirstAlias(aliases: seq<(string, string)>, field: Field, norms: seq<string>, used: set<nat>)
    ensures ConfigTier(aliases, field, norms, used).None? <==> NoneServes(aliases, field, norms, used)
    ensures ConfigTier(aliases, field, norms, used).Some? ==>
              exists k :: 0 <= k < |aliases| && FirstServing(aliases, k, field, norms, used)
                          && ConfigTier(aliases, field, norms, used) == AliasPick(Normalize(aliases[k].0), norms, used)
  {
    if |aliases| > 0 {
      var rest := aliases[1..];
      ConfigTierFirstAlias(rest, field, norms, used);
      if !Serves(aliases, 0, field, norms, used) {
        assert ConfigTier(aliases, field, norms, used) == ConfigTier(rest, field, norms, used);
        if ConfigTier(rest, field, norms, used).Some? {
          var k :| 0 <= k < |rest| && FirstServing(rest, k, field, norms, used)
                   && ConfigTier(rest, field, norms, used) == AliasPick(Normalize(rest[k].0), norms, used);
          ShiftFirstServing(aliases, k, field, norms, used);
          assert FirstServing(aliases, k + 1, field, norms, used)
                 && ConfigTier(aliases, field, norms, used) == AliasPick(Normalize(aliases[k + 1].0), norms, used);
        } else {
          ShiftNoneServes(aliases, field, norms, used);
        }
      } else {
        assert FirstServing(aliases, 0, field, norms, used);
        assert ConfigTier(aliases, field, norms, used) == AliasPick(Normalize(aliases[0].0), norms, used);
      }
    }
  }

  /** The first alias that serves the rest of the table is the first one
      of the whole table when the head does not serve. */
  lemma ShiftFirstServing(aliases: seq<(string, string)>, k: nat, field: Field, norms: seq<string>, used: set<nat>)
    requires k + 1 < |aliases| && !Serves(aliases, 0, field, norms, used)
    requires FirstServing(aliases[1..], k, field, norms, used)
    ensures aliases[k + 1] == aliases[1..][k]
    ensures FirstServing(aliases, k + 1, field, norms, used)
  {
    forall k' | 0 < k' < k + 1 ensures !Serves(aliases, k', field, norms, used) {
      ServesShift(aliases, k', field, norms, used);
    }
    ServesShift(aliases, k + 1, field, norms, used);
  }

  /** When neither the head nor any alias of the rest serves, none does. */
  lemma ShiftNoneServes(aliases: seq<(string, string)>, field: Field, norms: seq<string>, used: set<nat>)
    requires |aliases| > 0 && !Serves(aliases, 0, field, norms, used)
    requires NoneServes(aliases[1..], field, norms, used)
    ensures NoneServes(aliases, field, norms, used)
  {
    forall k | 0 < k < |aliases| ensures !Serves(aliases, k, field, norms, used) {
      ServesShift(aliases, k, field, norms, used);
    }
  }

  /** Dropping the first alias shifts every later alias down by one. */
  lemma ServesShift(aliases: seq<(string, string)>, k: nat, field: Field, norms: seq<string>, used: set<nat>)
    requires 0 < k < |aliases|
    ensures aliases[1..][k - 1] == aliases[k]
    ensures Serves(aliases[1..], k - 1, field, norms, used) == Serves(aliases, k, field, norms, used)
  {
  }

  /** One field's column: the `familia` rule, then the brand table, then the
      generic patterns, each consulted only when the ones before it found
      nothing. */
  function Resolve(field: Field, norms: seq<string>, used: set<nat>, config: MarcaConfig): (r: Option<nat>)
    ensures r.Some? ==> r.value < |norms| && r.value !in used
    ensures field == Familia && Find(norms, used, StartsFam).Some? ==> r == Find(norms, used, StartsFam)
    ensures (field != Familia || Find(norms, used, StartsFam).None?) && ConfigTier(config.colunaMap, field, norms, used).Some? ==>
              r == ConfigTier(config.colunaMap, field, norms, used)
    ensures r.None? <==>
              (field != Familia || Find(norms, used, StartsFam).None?)
              && ConfigTier(config.colunaMap, field, norms, used).None?
              && Find(norms, used, AnyOf(Fallbacks(field))).None?
    ensures (field != Familia || Find(norms, used, StartsFam).None?)
            && ConfigTier(config.colunaMap, field, norms, used).None? ==>
              r == Find(norms, used, AnyOf(Fallbacks(field)))
  {
    var fam := if field == Familia then Find(norms, used, StartsFam) else None;
    if fam.Some? then fam
    else
      var cfg := ConfigTier(config.colunaMap, field, norms, used);
      if cfg.Some? then cfg else Find(norms, used, AnyOf(Fallbacks(field)))
  }

  /** A partial assignment of columns: every assigned column exists and is
      recorded as claimed, and no two fields share a column. */
  predicate WellFormed(mapping: map<Field, nat>, used: set<nat>, n: nat) {
    (forall f :: f in mapping ==> mapping[f] in used && mapping[f] < n)
    && (forall f, g :: f in mapping && g in mapping && f != g ==> mapping[f] != mapping[g])
  }

  /** Claiming a free column for an unassigned field keeps the assignment
      well formed. */
  lemma ClaimKeepsWellFormed(mapping: map<Field, nat>, used: set<nat>, n: nat, f: Field, i: nat)
    requires WellFormed(mapping, used, n)
    requires f !in mapping && i < n && i !in used
    ensures WellFormed(mapping[f := i], used + {i}, n)
  {
  }

  predicate Distinct(fields: seq<Field>) {
    forall a, b :: 0 <= a < b < |fields| ==> fields[a] != fields[b]
  }

  /** The loop over `CAMPOS_ORDEM` from a given field on. Columns assigned
      earlier stay assigned, and the assignment stays well formed. */
  function MapFrom(fields: seq<Field>, norms: seq<string>, config: MarcaConfig, mapping: map<Field, nat>, used: set<nat>)
    : (r: (map<Field, nat>, set<nat>))
    requires Distinct(fields)
    requires forall k :: 0 <= k < |fields| ==> fields[k] !in mapping
    requires WellFormed(mapping, used, |norms|)
    ensures WellFormed(r.0, r.1, |norms|)
    ensures forall f :: f in mapping ==> f in r.0 && r.0[f] == mapping[f]
    ensures forall f :: f in r.0 ==> f in mapping || f in fields
    decreases |fields|
  {
    if |fields| == 0 then (mapping, used)
    else
      var f := fields[0];
      assert forall k :: 0 <= k < |fields| - 1 ==> fields[1..][k] == fields[k + 1];
      match Resolve(f, norms, used, config)
      case Some(i) =>
        ClaimKeepsWellFormed(mapping, used, |norms|, f, i);
        MapFrom(fields[1..], norms, config, mapping[f := i], used + {i})
      case None =>
        MapFrom(fields[1..], norms, config, mapping, used)
  }

  /** Every header in normalised form. */
  function NormsOf(headers: seq<string>): (norms: seq<string>)
    ensures |norms| == |headers|
    ensures forall i :: 0 <= i < |headers| ==> norms[i] == Normalize(headers[i])
  {
    seq(|headers|, i requires 0 <= i < |headers| => Normalize(headers[i]))
  }

  datatype MapResult = MapResult(mapeamento: map<Field, nat>, erros: seq<string>)

  /** `mapearColunas(headers, marcaConfig)`: no column serves two fields,
      every column is a header's index, and the error list holds the
      reference error exactly when no column was found for `referencia`. */
  function MapearColunas(headers: seq<string>, config: MarcaConfig): (r: MapResult)
    ensures forall f :: f in r.mapeamento ==> r.mapeamento[f] < |headers|
    ensures forall f, g :: f in r.mapeamento && g in r.mapeamento && f != g ==>
              r.mapeamento[f] != r.mapeamento[g]
    ensures r.erros == (if Referencia in r.mapeamento then [] else [RefError])
  {
    var st := MapFrom(CamposOrdem, NormsOf(headers), config, map[], {});
    MapResult(st.0, if Referencia in st.0 then [] else [RefError])
  }

  /** `MapFrom` over a concatenation is `MapFrom` over the second part,
      starting from where the first part left off. */
  lemma {:induction false} MapFromSplit(a: seq<Field>, b: seq<Field>, norms: seq<string>, config: MarcaConfig,
                                        mapping: map<Field, nat>, used: set<nat>)
    requires Distinct(a) && Distinct(b)
    requires forall i, j :: 0 <= i < |a| && 0 <= j < |b| ==> a[i] != b[j]
    requires forall k :: 0 <= k < |a| ==> a[k] !in mapping
    requires forall k :: 0 <= k < |b| ==> b[k] !in mapping
    requires WellFormed(mapping, used, |norms|)
    ensures Distinct(a + b)
    ensures var st := MapFrom(a, norms, config, mapping, used);
            (forall k :: 0 <= k < |b| ==> b[k] !in st.0)
            && MapFrom(a + b, norms, config, mapping, used) == MapFrom(b, norms, config, st.0, st.1)
    decreases |a|
  {
    var ab := a + b;
    assert forall k :: 0 <= k < |a| ==> ab[k] == a[k];
    assert forall k :: 0 <= k < |b| ==> ab[|a| + k] == b[k];
    assert Distinct(ab) by {
      forall x, y | 0 <= x < y < |ab| ensures ab[x] != ab[y] {
        if y < |a| {
        } else if x < |a| {
          assert ab[y] == b[y - |a|];
        } else {
          assert ab[x] == b[x - |a|] && ab[y] == b[y - |a|];
        }
      }
    }
    if |a| > 0 {
      var f := a[0];
      var a' := a[1..];
      assert ab[1..] == a' + b;
      assert forall k :: 0 <= k < |a'| ==> a'[k] == a[k + 1];
      match Resolve(f, norms, used, config)
      case Some(i) =>
        ClaimKeepsWellFormed(mapping, used, |norms|, f, i);
        MapFromSplit(a', b, norms, config, mapping[f := i], used + {i});
      case None =>
        MapFromSplit(a', b, norms, config, mapping, used);
    } else {
      assert ab == b;
    }
  }

  /** `referencia` is mapped exactly when it finds a column with every
      column still free; it is the first field to choose. */
  lemma ReferenceMappedIff(headers: seq<string>, config: MarcaConfig)
    ensures var norms := NormsOf(headers);
            var r := MapearColunas(headers, config);
            (Referencia in r.mapeamento <==> Resolve(Referencia, norms, {}, config).Some?)
            && (Referencia in r.mapeamento ==> r.mapeamento[Referencia] == Resolve(Referencia, norms, {}, config).value)
            && (r.erros != [] <==> Resolve(Referencia, norms, {}, config).None?)
  {
    var norms := NormsOf(headers);
    var empty: map<Field, nat> := map[];
    CamposOrdemDistinct();
    FirstFieldDecides(CamposOrdem, norms, config, empty, {});
  }

  lemma CamposOrdemDistinct()
    ensures Distinct(CamposOrdem) && CamposOrdem[0] == Referencia
  {
  }

  /** The next field to choose gets exactly what `Resolve` finds for it,
      and keeps it. */
  lemma FirstFieldDecides(b: seq<Field>, norms: seq<string>, config: MarcaConfig, mapping: map<Field, nat>, used: set<nat>)
    requires |b| > 0 && Distinct(b)
    requires forall k :: 0 <= k < |b| ==> b[k] !in mapping
    requires WellFormed(mapping, used, |norms|)
    ensures var r := MapFrom(b, norms, config, mapping, used);
            (b[0] in r.0 <==> Resolve(b[0], norms, used, config).Some?)
            && (b[0] in r.0 ==> r.0[b[0]] == Resolve(b[0], norms, used, config).value)
  {
    var b' := b[1..];
    assert forall k :: 0 <= k < |b'| ==> b'[k] == b[k + 1];
    assert b[0] !in b';
    match Resolve(b[0], norms, used, config)
    case Some(i) =>
      ClaimKeepsWellFormed(mapping, used, |norms|, b[0], i);
    case None =>
  }

  /** The fields that choose before `familia`, and those from it on. */
  lemma CamposOrdemSplit()
    ensures CamposOrdem == CamposOrdem[..4] + CamposOrdem[4..]
    ensures Distinct(CamposOrdem[..4]) && Distinct(CamposOrdem[4..])
    ensures forall i, j :: 0 <= i < 4 && 0 <= j < 5 ==> CamposOrdem[..4][i] != CamposOrdem[4..][j]
    ensures CamposOrdem[4..][0] == Familia
    ensures |CamposOrdem[4..]| == 5
  {
  }

  /** The `familia` rule: once `referencia`, `descricao`, `preco_tabela` and
      `ean` have claimed their columns, a free header starting with "fam"
      is the family column, whatever the brand table says. */
  lemma FamiliaRule(headers: seq<string>, config: MarcaConfig)
    ensures var norms := NormsOf(headers);
            var empty: map<Field, nat> := map[];
            var before := MapFrom(CamposOrdem[..4], norms, config, empty, {});
            var r := MapearColunas(headers, config);
            Find(norms, before.1, StartsFam).Some? ==>
              Familia in r.mapeamento && r.mapeamento[Familia] == Find(norms, before.1, StartsFam).value
  {
    var norms := NormsOf(headers);
    var empty: map<Field, nat> := map[];
    var a := CamposOrdem[..4];
    var b := CamposOrdem[4..];
    CamposOrdemSplit();
    MapFromSplit(a, b, norms, config, empty, {});
    var before := MapFrom(a, norms, config, empty, {});
    FirstFieldDecides(b, norms, config, before.0, before.1);
  }
}
