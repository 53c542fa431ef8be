# Componentes: spreadsheet import and catalogue views, in Dafny

Componentes imports supplier price lists into a component catalogue. An
Excel sheet is read, and its header row is located. Each of nine
database fields (`referencia`, `descricao`, `preco_tabela`, `ean`,
`familia`, `grupo_desconto`, `unidade`, `quantidade_minima`, `peso`) is
mapped to at most one column, using the brand's alias table
(`marcas.ts`) and generic fallback patterns. Every data row is cleaned
into a `Componente`. The records are then upserted in batches of 100;
rejected batches are retried one record at a time, and the run stops
after five failed batches in a row. The user interface keeps a list of
uploaded files with their brand and status. It also shows three tables:
the catalogue, the price history and the discount groups. These tables
have pagination, brand filters, a search box and (for the history)
column sorting.

This project models that core as pure Dafny functions, plus two methods
for the loops, and proves what the code promises about them.

| file | module | what it models |
|---|---|---|
| `wrappers.dfy` | `Wrappers` | `Option`, standing for `null`/`undefined` |
| `text.dfy` | `Text` | `trim`, `toLowerCase`, `includes`/`startsWith`/`endsWith`, `String(n)`, `join` |
| `jsnumber.dfy` | `JsNumbers` | `parseFloat` over exact decimals |
| `cleaning.dfy` | `Cleaning` | `limparValor`, `paraNumero` |
| `normalize.dfy` | `Normalization` | `normalizar` |
| `types.dfy` | `Types` | `Componente`, `Marca`, `MarcaConfig`, `ImportResult`, `ProcessingStatus`, the `CamposBD` names |
| `marcas.dfy` | `Marcas` | `MARCAS_PROCESSAMENTO`, `getMarcaConfig`, `hasMarcaConfig` |
| `mapper.dfy` | `Mapper` | `CAMPOS_ORDEM`, `FALLBACKS_GENERICOS`, `mapearColunas` |
| `excel.dfy` | `ExcelProcessor` | `processarExcel` from the decoded grid on: header row, mapping, row extraction |
| `database.dfy` | `Database` | `inserirComponentes`; the page range of `listarComponentes` |
| `upload.dfy` | `Upload` | the file list of `UploadSection` and the outcome of `processarTodos` |
| `pagination.dfy` | `Pagination` | page count, previous/next buttons and the row label shared by both tables |
| `historico.dfy` | `Historico` | sort, refresh and filter state of `TabelaHistorico` |
| `catalogo.dfy` | `Catalogo` | filter state and `getNomeMarca` of `TabelaComponentes` |
| `descontos.dfy` | `Descontos` | `valorVisual`, brand order and the initial selection of `TabelaDescontos` |

Behaviour of the code that a reader might expect to be otherwise:
- Header detection: the code takes the first of the first 50 rows whose
  lower-cased JSON text contains "referencia" or "ref", or both
  "codigo" and "descricao", and otherwise row 0. No score is computed.
- Column mapping has three tiers:
  1. the `familia` "starts with fam" rule;
  2. each brand alias, matched first exactly and then by containment,
     with an alias shorter than 3 characters only matching exactly;
  3. the generic patterns, matched by containment.

  There is no prefix tier, no punctuation-insensitive normaliser and no
  separate quantity fallback.
- The message list of an import run is not capped.
- Sheet selection has no name-similarity step.

## Model

| member | source | states |
|---|---|---|
| Text.ToLower | src/lib/excelProcessor.ts:11 | Lower-casing keeps the length and maps each character on its own; no upper-case letter is left |
| Text.ToLowerIdempotent | src/lib/excelProcessor.ts:26 | Lower-casing twice is lower-casing once |
| Text.Trim | src/lib/excelProcessor.ts:10 | The trimmed text is a contiguous slice of the input that neither starts nor ends with white space |
| Text.TrimDropsOnlySpace | src/lib/excelProcessor.ts:10 | Everything trim removes, before and after the kept slice, is white space |
| Text.TrimIdempotent | src/lib/excelProcessor.ts:10 | Trimming twice is trimming once |
| Text.TrimEmptyIff | src/lib/excelProcessor.ts:11 | The trimmed text is empty exactly when the input is all white space |
| Text.TrimNoEnds | src/lib/excelProcessor.ts:10 | Text with no white space at either end is its own trim |
| Text.Join | src/components/UploadSection.tsx:117 | No parts join to "", and a single part joins to itself |
| Text.JoinLength | src/components/UploadSection.tsx:117 | The joined text is as long as all the parts plus one separator between each two |
| Text.JoinEnds | src/components/UploadSection.tsx:126 | The joined text starts with the first part and ends with the last |
| JsNumbers.ParseFloatDefinedIff | src/lib/excelProcessor.ts:19-20 | `parseFloat` gives a number exactly when, after an optional sign, the text starts with "Infinity", a digit, or a point followed by a digit |
| JsNumbers.ParseFloat | src/lib/excelProcessor.ts:19 | Definition: an optional sign, then "Infinity" or the longest decimal prefix; None stands for NaN. Its properties are stated by the three `ParseFloat` lemmas |
| JsNumbers.ParseFloatNatToString | src/lib/excelProcessor.ts:19 | Reading back the decimal rendering of a natural number gives that number |
| JsNumbers.ParseFloatDecimal | src/lib/excelProcessor.ts:19 | "digits.digits" reads as the whole part plus the fraction |
| Cleaning.NanTokenSpellings | src/lib/excelProcessor.ts:11 | The NaN marker is exactly the eight casings of "nan" |
| Cleaning.LimparValor | src/lib/excelProcessor.ts:8-13 | null for an absent cell, for white space only and for "nan" in any casing; otherwise the trimmed text, which is non-empty and has no white space at either end |
| Cleaning.LimparValorStable | src/lib/excelProcessor.ts:8-13 | Cleaning a cleaned value again changes nothing |
| Cleaning.LimparValorBlank | src/lib/excelProcessor.ts:11 | A white-space-only cell cleans to null |
| Cleaning.LimparValorClean | src/lib/excelProcessor.ts:10-12 | Text already free of white space at the ends, and not "nan", is kept unchanged |
| Cleaning.LimparValorNanExample | src/lib/excelProcessor.ts:11 | "NaN" cleans to null |
| Cleaning.LimparValorTrimExample | src/lib/excelProcessor.ts:10-12 | " Foo " cleans to "Foo" |
| Cleaning.LimparValorPadded | src/lib/excelProcessor.ts:10-12 | A clean value with one space added on each side cleans back to itself |
| Cleaning.TrimPadded | src/lib/excelProcessor.ts:10 | Trimming removes one space from each side of text whose ends are not white space |
| Cleaning.ReplaceFirstComma | src/lib/excelProcessor.ts:17 | Only commas may change, and each one that does becomes a point; text without a comma is unchanged |
| Cleaning.ReplaceFirstCommaSplit | src/lib/excelProcessor.ts:17 | Exactly the first comma becomes a point; everything after it is kept |
| Cleaning.ParaNumero | src/lib/excelProcessor.ts:15-21 | null for an absent cell, white space only or "nan"; otherwise `parseFloat` of the trimmed text with its first comma made a point |
| Cleaning.NanTokenUnaffected | src/lib/excelProcessor.ts:17-18 | Replacing the comma neither creates nor hides the NaN marker |
| Cleaning.ParaNumeroComma | src/lib/excelProcessor.ts:17-19 | "digits,digits" reads as the decimal number with a decimal comma |
| Cleaning.ParaNumeroNat | src/lib/excelProcessor.ts:15-21 | A natural number written in decimal reads back as itself |
| Cleaning.ParaNumeroDecimalExample | src/lib/excelProcessor.ts:17-19 | "1,5" reads as 1.5 |
| Cleaning.ParaNumeroNan | src/lib/excelProcessor.ts:18 | Every casing of "nan" gives null |
| Cleaning.ParaNumeroLetterStart | src/lib/excelProcessor.ts:15-21 | Text starting with a lower-case letter other than "n" gives null, as `parseFloat` finds no number in it |
| Cleaning.ParaNumeroWordExample | src/lib/excelProcessor.ts:19-20 | "abc" gives null, because `parseFloat` returns NaN |
| Normalization.StripAccents | src/lib/excelProcessor.ts:27-29 | The result has no accented letter and no combining mark, and each of its characters is the base letter of an input character; text without marks maps character by character to its base letters |
| Normalization.BaseLetter | src/lib/excelProcessor.ts:27-29 | "ç" becomes "c" and each accented vowel its plain vowel; no upper-case letter, blank, point or mark is created |
| Normalization.StripAccentsAppend | src/lib/excelProcessor.ts:27-29 | Accent removal works piece by piece: the result for two joined texts is the two results joined |
| Normalization.Collapse | src/lib/excelProcessor.ts:30 | No two spaces are adjacent and every blank left is a plain space; the non-blank characters are those of the input, in order; empty exactly when the input is empty |
| Normalization.CollapseSplit | src/lib/excelProcessor.ts:30 | Text that ends in a non-blank collapses independently of what follows it |
| Normalization.CollapseRun | src/lib/excelProcessor.ts:30 | A run of blanks becomes exactly one space |
| Normalization.DropDots | src/lib/excelProcessor.ts:31 | The result holds no point and only input characters, and is the input itself when it had none |
| Normalization.DropDotsAppend | src/lib/excelProcessor.ts:31 | Point removal works piece by piece, so the kept characters stay in their order |
| Normalization.Normalize | src/lib/excelProcessor.ts:24-33 | The result holds only lower-case, unaccented, point-free characters, with a plain space as the only blank, and no space at either end. Its non-blank characters are the input's letters, in order, lower-cased and stripped of accents, with points and marks removed; input without blanks gives exactly those letters |
| Normalization.PipelineLetters | src/lib/excelProcessor.ts:26-31 | Lower-casing, accent removal and point removal, taken apart from blanks, spell the input's letters in order |
| Normalization.NormalizeLetters | src/lib/excelProcessor.ts:24-33 | After the last stage and the trim, the non-blank characters are the input's letters |
| Normalization.NormalizePreco | src/lib/excelProcessor.ts:24-33 | "Preço" normalises to "preco" |
| Normalization.NormalizeReferencia | src/lib/excelProcessor.ts:24-33 | "Referência" normalises to "referencia" |
| Normalization.NormalChars | src/lib/excelProcessor.ts:26-31 | The character guarantees of each stage carry over to the next |
| Normalization.NormalizeIgnoresCase | src/lib/excelProcessor.ts:26 | Normalising lower-cased text gives the same as normalising the original |
| Normalization.NormalizeFixpoint | src/lib/excelProcessor.ts:24-33 | Text already in normal form with single spaces is left unchanged |
| Normalization.NormalizeIdempotentWhenSingleSpaced | src/lib/excelProcessor.ts:24-33 | Normalising twice equals normalising once whenever the first result has no double space |
| Normalization.NormalizeNotIdempotent | src/lib/excelProcessor.ts:30-31 | Normalising is not idempotent in general: "a . b" gives "a  b", which normalises to "a b" |
| Normalization.NormalizeAbbreviation | src/lib/excelProcessor.ts:31 | "P.V.P" normalises to "pvp" |
| Types.FieldNameRoundTrip | src/lib/excelProcessor.ts:39-40 | Each field's column name reads back as that field |
| Types.FieldNameInjective | src/lib/excelProcessor.ts:39-40 | Distinct fields have distinct column names |
| Marcas.GetMarcaConfig | src/config/marcas.ts:50-52 | A configuration is returned exactly for the registered ids, and it is the one stored under that id |
| Marcas.HasMarcaConfig | src/config/marcas.ts:54-56 | True exactly for the registered ids |
| Marcas.HasIffGet | src/config/marcas.ts:50-56 | `hasMarcaConfig` holds exactly when `getMarcaConfig` finds a configuration |
| Marcas.RegistryContents | src/config/marcas.ts:6-11 | Only id 1 is registered: Schneider Electric, read from sheet "TP" |
| Marcas.RegistryKeysAreIds | src/config/marcas.ts:6-9 | Every registry key is the id of its configuration |
| Marcas.AliasTargetsAreFields | src/config/marcas.ts:12-39 | Every alias targets one of the nine database fields |
| Mapper.FirstHit | src/lib/excelProcessor.ts:132-142 | The first free column from the start position whose header passes the test; none exists when the result is None |
| Mapper.Find | src/lib/excelProcessor.ts:81-90 | The first free matching column; None exactly when no free column matches |
| Mapper.AliasPick | src/lib/excelProcessor.ts:100-124 | When some free header equals the alias, the first such header is picked; otherwise the first free header containing it, where a short alias needs equality; None exactly when neither test hits |
| Mapper.ConfigTier | src/lib/excelProcessor.ts:97-126 | The brand tier only ever returns a free, existing column |
| Mapper.ConfigTierFirstAlias | src/lib/excelProcessor.ts:97-126 | The brand tier finds nothing exactly when no alias for the field finds a column; otherwise it returns the pick of the first alias that does |
| Mapper.Resolve | src/lib/excelProcessor.ts:76-143 | The family rule decides first, then the brand tier; when both find nothing the result is the first free column matching one of the field's generic patterns; nothing is found only when all three fail |
| Mapper.ClaimKeepsWellFormed | src/lib/excelProcessor.ts:146-148 | Claiming a free column for an unmapped field keeps columns distinct and recorded as used |
| Mapper.MapFrom | src/lib/excelProcessor.ts:76-152 | The field loop keeps earlier assignments, assigns only the fields it visits, and never gives one column to two fields |
| Mapper.MapearColunas | src/lib/excelProcessor.ts:60-160 | Every mapped column is a header index; no column serves two fields; the reference error is reported exactly when `referencia` is unmapped |
| Mapper.MapFromSplit | src/lib/excelProcessor.ts:76 | The field loop over two consecutive groups of fields runs the second group from where the first left off |
| Mapper.ReferenceMappedIff | src/lib/excelProcessor.ts:76-157 | `referencia` chooses first, against all columns; it is mapped, and the error list is empty, exactly when its resolution succeeds |
| Mapper.CamposOrdemDistinct | src/lib/excelProcessor.ts:42-45 | `CAMPOS_ORDEM` lists distinct fields and starts with `referencia` |
| Mapper.FirstFieldDecides | src/lib/excelProcessor.ts:76-152 | The next field to choose keeps exactly the column its resolution finds |
| Mapper.FamiliaRule | src/lib/excelProcessor.ts:79-91 | Once the four fields before it have chosen, a free header starting with "fam" is the family column, whatever the brand table says |
| ExcelProcessor.ScanHeader | src/lib/excelProcessor.ts:204-211 | Returns the first header-like row in the scanned range; None when there is none |
| ExcelProcessor.IsHeaderRow | src/lib/excelProcessor.ts:205-207 | Definition: some cell mentions "referencia" or "ref", or cells mention both "codigo" and "descricao". `ScanHeader` and `HeaderIndex` state its use |
| ExcelProcessor.HeaderIndex | src/lib/excelProcessor.ts:203-211 | The header row is the first header-like row among the first 50; it is row 0 only when row 0 is header-like or none is |
| ExcelProcessor.HeadersOf | src/lib/excelProcessor.ts:213 | One trimmed text per cell, and "" for an absent cell |
| ExcelProcessor.CellAt | src/lib/excelProcessor.ts:249 | An unmapped field, or a column past the end of the row, reads as absent |
| ExcelProcessor.ExtractRow | src/lib/excelProcessor.ts:243-262 | A row is ignored exactly when its reference cleans to null. Otherwise the record carries the brand id and the cleaned reference; each text field is the cleaned cell of its column, and each number field the read number of its column; the unit is the cleaned cell, or "UN" when that is null |
| ExcelProcessor.ExtractRowUnmapped | src/lib/excelProcessor.ts:249-261 | Every optional field without a column is null, except the unit, which is "UN" |
| ExcelProcessor.RecordsOf | src/lib/excelProcessor.ts:230-263 | At most one record per row, and every record is well formed for the brand |
| ExcelProcessor.RowsAccountedFor | src/lib/excelProcessor.ts:232-247 | Every non-empty row yields a record or is counted as ignored, never both |
| ExcelProcessor.RecordsOfAppend | src/lib/excelProcessor.ts:230-263 | Extraction keeps row order: two consecutive blocks of rows give their records in sequence |
| ExcelProcessor.RowCases | src/lib/excelProcessor.ts:232-262 | An empty row is skipped silently; a non-empty row gives exactly its extracted record when its reference cleans to a value, and is counted as ignored otherwise |
| ExcelProcessor.RecordsOfOne | src/lib/excelProcessor.ts:232-262 | A single row yields its record, or nothing when it is empty or ignored |
| ExcelProcessor.ExtendRows | src/lib/excelProcessor.ts:230-263 | One more row appends its record, counts one more ignored row, or changes nothing |
| ExcelProcessor.ExtractRows | src/lib/excelProcessor.ts:230-263 | The loop computes the records and the ignored count of the rows after the header |
| ExcelProcessor.ProcessarExcel | src/lib/excelProcessor.ts:198-272 | Fewer than two rows fail with "Ficheiro vazio". An unmapped reference column fails with the mapping errors, and a failure returns no record. Otherwise `linhasProcessadas` is the record count, records plus ignored rows stay below the row count, and every record is well formed |
| ExcelProcessor.NonEmptyRowsBound | src/lib/excelProcessor.ts:232 | There are no more non-empty rows than rows |
| ExcelProcessor.ProcessarExcelRecords | src/lib/excelProcessor.ts:225-263 | With the reference column mapped, the records are exactly those of the rows after the header row, in order; without it there are none |
| Database.ToUpsertRow | src/lib/database.ts:43-55 | Every field is copied and the time stamp is the run's; the unit is "UN" when null or empty, so it is never empty |
| Database.NumBatches | src/lib/database.ts:25 | The smallest batch count that covers all records |
| Database.BatchLen | src/lib/database.ts:29-31 | Each batch holds 100 records except the last, which ends at the last record |
| Database.CountAccepted | src/lib/database.ts:72-89 | The retry stores at most the batch's records |
| Database.CountRejected | src/lib/database.ts:72-89 | The retry loses at most the batch's records |
| Database.RetryCounts | src/lib/database.ts:72-89 | Each record of a retried batch is either stored or lost |
| Database.BatchErrors | src/lib/database.ts:91-116 | An accepted batch loses nothing and a thrown batch loses all its records; a retried one loses at most all |
| Database.BatchAccounting | src/lib/database.ts:91-116 | The stored and lost records of a batch add up to its length |
| Database.Step | src/lib/database.ts:41-124 | One batch adds exactly its stored and lost records to the totals. A failed batch extends the streak and any other resets it |
| Database.StepMessages | src/lib/database.ts:91-123 | A batch only appends messages. A batch without loss adds none; a failed batch adds its own line, "Lote n: s ok, e erros" or "Erro no lote n"; a fifth failure in a row ends the list with the stop message of the path taken |
| Database.RunUpTo | src/lib/database.ts:29-123 | Definition: the state after the first `b` batches, each applied by `Step`. `RunAccounting` and `StreakCountsFailures` state its properties |
| Database.RunAccounting | src/lib/database.ts:29-125 | After any number of batches, stored plus lost equals the records covered |
| Database.StreakCountsFailures | src/lib/database.ts:94-118 | The streak is at least `j` exactly when the last `j` batches all failed |
| Database.StopFrom | src/lib/database.ts:108-123 | The run stops at the first batch that completes five failures in a row, or after the last batch |
| Database.Processed | src/lib/database.ts:29-123 | A non-empty run processes at least one batch and at most all of them |
| Database.StopUnique | src/lib/database.ts:108-123 | The stop point is the only batch count that halts without having halted earlier |
| Database.InsertResult | src/lib/database.ts:6-138 | No records gives "Nenhum componente para inserir"; otherwise stored plus lost equals the records of the processed batches |
| Database.AllAcceptedRun | src/lib/database.ts:101-104 | While every batch is accepted whole, every covered record is stored and no message is produced |
| Database.AllAccepted | src/lib/database.ts:29-137 | A store that accepts everything gets every batch, and the result is all stored, none lost, no message |
| Database.ErrorFreeNoStreak | src/lib/database.ts:94-103 | A run with no lost record has no failure streak |
| Database.NoErrorsStoresAll | src/lib/database.ts:29-137 | A result without lost records processed every batch and stored every record |
| Database.AllLostNoneStored | src/lib/database.ts:29-137 | A run that lost every record stored none |
| Database.PayloadRows | src/lib/database.ts:31-55 | Batch `k` carries records `100k` onwards, in order, as upsert rows |
| Database.Payload | src/lib/database.ts:31-55 | A batch's payload has one upsert row per record of the batch |
| Database.BatchEvent | src/lib/database.ts:33-39 | The report before each batch is in phase "inserindo", with progress between 80 and 98 and the count of records reached |
| Database.Payloads | src/lib/database.ts:29-55 | The payloads sent so far are, in order, those of batches 0 to `b - 1` |
| Database.BatchEvents | src/lib/database.ts:29-39 | The reports sent so far are, in order, those of batches 0 to `b - 1` |
| Database.FinalEvent | src/lib/database.ts:129-135 | The last report is in phase "concluido" at 100, with every record counted |
| Database.InserirComponentes | src/lib/database.ts:6-138 | The loop's result equals the run up to the stop point. One payload and one report are sent per processed batch, in order, followed by the final report at 100 |
| Database.AllBatchesCoverAll | src/lib/database.ts:25-29 | All batches together cover every record |
| Database.RetryExample | src/lib/database.ts:68-99 | A rejected batch of 100 whose retry saves 97 counts 97 stored and 3 lost, and starts a streak |
| Database.RequestRange | src/lib/database.ts:163-179 | The inclusive range requested holds exactly `porPagina` rows |
| Database.PagesTile | src/lib/database.ts:163-179 | Page 1 starts at row 0, and consecutive pages request adjacent ranges |
| Upload.FiltrarLargados | src/components/UploadSection.tsx:53-55 | Exactly the dropped files whose name ends in ".xlsx" or ".xls" are kept |
| Upload.FiltrarAppend | src/components/UploadSection.tsx:53-55 | Filtering keeps the drop order |
| Upload.FiltrarKeepsSpreadsheets | src/components/UploadSection.tsx:53-55 | A drop of spreadsheets only is kept whole |
| Upload.AdicionarFicheiros | src/components/UploadSection.tsx:66-75 | The existing entries stay in place, and each file is appended in order, waiting for a brand |
| Upload.RemoverFicheiro | src/components/UploadSection.tsx:77-79 | The entry at the index is removed and the rest keep their order; an index out of range changes nothing |
| Upload.RemoveAfterAdd | src/components/UploadSection.tsx:66-79 | Removing a file just added restores the list |
| Upload.SelecionarMarca | src/components/UploadSection.tsx:81-89 | Only the targeted entry changes: it gets the brand and becomes pending, keeping its file, result and error message |
| Upload.SelectMakesEligible | src/components/UploadSection.tsx:81-100 | Choosing a brand makes the targeted entry eligible for processing and leaves the others' eligibility alone |
| Upload.Elegivel | src/components/UploadSection.tsx:100 | Definition: a pending entry with a brand. `SelectMakesEligible` and `ProcessarTodos` state its use |
| Upload.ProcessarFicheiro | src/components/UploadSection.tsx:106-137 | No brand configuration fails. No component extracted fails with the mapping errors joined by "; ", or "Nenhum componente encontrado". Every record lost fails with "Falha ao inserir todos os registos." and the store messages joined by " \| ". Otherwise the result is kept with the mapping errors before the store messages, and the file succeeds exactly when no record was lost |
| Upload.EmptySheetFails | src/components/UploadSection.tsx:110-117 | A sheet with fewer than two rows fails with "Ficheiro vazio" |
| Upload.ProcessarTodos | src/components/UploadSection.tsx:96-141 | Every eligible entry is processed with its own store answers and the others are untouched; afterwards no entry is eligible |
| Pagination.TotalPaginas | src/components/TabelaComponentes.tsx:58 | Enough pages for every row, and no empty last page |
| Pagination.TotalPaginasZeroIff | src/components/TabelaHistorico.tsx:89 | There are no pages exactly when there are no rows |
| Pagination.Anterior | src/components/TabelaComponentes.tsx:262 | "Previous" goes back one page, but not below 1 |
| Pagination.Seguinte | src/components/TabelaComponentes.tsx:275 | "Next" goes forward one page, but not past the last |
| Pagination.NavigationStaysInRange | src/components/TabelaHistorico.tsx:294-304 | From a valid page both buttons lead to a valid page |
| Pagination.NavigationRoundTrip | src/components/TabelaHistorico.tsx:294-304 | "Next" then "previous" returns to the page, except on the last page; likewise "previous" then "next", except on the first |
| Pagination.MostraPaginacaoIff | src/components/TabelaComponentes.tsx:255 | The controls are shown exactly when there are more than 20 rows |
| Pagination.Rotulo | src/components/TabelaComponentes.tsx:258 | The label starts at the page's first row and ends at the page end or the total, whichever comes first |
| Pagination.RotuloOrdered | src/components/TabelaHistorico.tsx:290 | On a valid page the label is a non-empty range of at most 20 rows within the total |
| Pagination.RotuloMatchesRequest | src/components/TabelaComponentes.tsx:258 | The label names the rows the page query requests |
| Pagination.RotulosTile | src/components/TabelaHistorico.tsx:290 | Consecutive labels meet without gap or overlap, and the last page ends at the total |
| Historico.HandleSort | src/components/TabelaHistorico.tsx:42-49 | Clicking the current column flips the direction; another column becomes current, ascending; nothing else changes |
| Historico.HandleSortInvolution | src/components/TabelaHistorico.tsx:42-49 | Two clicks on the current column restore the view |
| Historico.HandleSortNewTwice | src/components/TabelaHistorico.tsx:42-49 | Two clicks on a new column sort it descending |
| Historico.HandleRefresh | src/components/TabelaHistorico.tsx:51-56 | Refresh returns to "valido_ate" descending, page 1 and no search, and keeps the brand filter |
| Historico.HandleRefreshIdempotent | src/components/TabelaHistorico.tsx:28-56 | Refreshing twice is refreshing once; without a brand filter it gives the opening state |
| Historico.FiltrarMarca | src/components/TabelaHistorico.tsx:155-170 | A brand button sets the filter and page 1, and leaves the sort and search alone |
| Historico.Pesquisar | src/components/TabelaHistorico.tsx:197-203 | Typing or clearing the search sets it and page 1, and leaves the sort and brand alone |
| Historico.FiltersCommute | src/components/TabelaHistorico.tsx:155-203 | The brand filter and the search can be set in either order |
| Catalogo.FiltrarMarca | src/components/TabelaComponentes.tsx:119-134 | A brand button sets the filter and page 1, and keeps the search |
| Catalogo.Pesquisar | src/components/TabelaComponentes.tsx:164 | Typing sets the search and page 1, and keeps the brand |
| Catalogo.FiltersResetToStart | src/components/TabelaComponentes.tsx:119-164 | Clearing both filters returns to the opening state from any page |
| Catalogo.FindMarca | src/components/TabelaComponentes.tsx:61 | The position of the first brand with the id; None exactly when no brand has it |
| Catalogo.GetNomeMarca | src/components/TabelaComponentes.tsx:60-63 | The name shown is never empty; it is either a matching brand's name or "Marca id" |
| Catalogo.GetNomeMarcaUnique | src/components/TabelaComponentes.tsx:60-63 | A brand whose id is unique and whose name is non-empty is shown by that name |
| Catalogo.GetNomeMarcaAbsent | src/components/TabelaComponentes.tsx:60-63 | An unknown id is shown as "Marca id" |
| Descontos.ValorVisual | src/components/TabelaDescontos.tsx:128-131 | A fraction in (0, 1] is shown times 100; any other value is shown as stored |
| Descontos.ValorVisualRange | src/components/TabelaDescontos.tsx:128-131 | Values in (0, 100] are shown within (0, 100], and a fraction never shrinks |
| Descontos.ValorVisualInjectiveOnFractions | src/components/TabelaDescontos.tsx:128-131 | Over exact reals, distinct fractions are shown distinctly |
| Descontos.ValorVisualAmbiguous | src/components/TabelaDescontos.tsx:128-131 | 0.5 and 50 are both shown as 50 |
| Descontos.InsertById | src/components/TabelaDescontos.tsx:35 | Inserting into a sorted list keeps it sorted and adds exactly the one brand |
| Descontos.SortById | src/components/TabelaDescontos.tsx:35 | The same brands, as a multiset, in ascending id order |
| Descontos.SortedHeadIsMinimum | src/components/TabelaDescontos.tsx:35-39 | The first sorted brand has the smallest id |
| Descontos.SelecaoInicial | src/components/TabelaDescontos.tsx:38-40 | An existing selection is kept; with nothing selected, the first sorted brand is selected |
| Descontos.LoadSelectsSmallestId | src/components/TabelaDescontos.tsx:32-41 | Loading brands with nothing selected selects an existing brand with the smallest id |
| Descontos.DescontosVisiveis | src/components/TabelaDescontos.tsx:24-30 | With no brand selected (or id 0) the list is empty; otherwise it is the selected brand's discounts |

## Left out

- XLSX decoding and sheet selection (`XLSX.read`, `sheet_to_json`, and the fallback to the first sheet) are not modelled. The decoded grid of the chosen sheet is an input, so `processarExcel`'s catch of a decoding failure is not modelled either.
- Cell values are modelled as their `String(value)` text. How JavaScript renders a numeric cell as text is not modelled.
- The header test checks each cell's lower-cased text, which stands for `JSON.stringify(row).toLowerCase().includes(w)`. JSON escapes (such as `\r` followed by "ef") that could fake a match across the escape are not modelled.
- `toLowerCase` and the NFD decomposition are modelled for ASCII and Latin-1 only. Letters outside Latin-1 pass through unchanged.
- JsNumbers.ParseFloatDefinedIff: `parseFloat` is modelled over exact reals. IEEE-754 rounding, overflow to Infinity and negative zero are not modelled.
- Database.BatchEvent: progress uses integer division for `Math.floor((lote / total) * 18)`. The floating-point rounding of that quotient is not modelled.
- The progress callbacks and the `setTimeout` yields of `processarExcel` (lines 184, 200, 228, 234-241, 265) only report progress and are left out. The same goes for the transient `processingStatus` and "processando" states of the upload list. Only the final status of each file is modelled.
- The Supabase client and the network are not modelled. The store is an oracle that gives each batch's answer: accepted whole, rejected and then retried record by record, or thrown. A retry that throws partway is treated as a thrown batch. An upsert's effect on the table is not modelled.
- `new Date().toISOString()` is the parameter `now`. It is the same for every record of a run, whereas the source reads the clock once per record.
- Console logging is not modelled.
- `contarComponentes`, `contarComponentesHistorico`, the per-brand counts and the filter/search/sort query of `listarComponentes` and `listarComponentesHistorico` run in the database and are not modelled. Only the requested row range is modelled.
- The history table passes its sort column and direction to `listarComponentesHistorico`, which ignores them and always orders by `valido_ate` descending. The model therefore covers the sort state only and claims nothing about the order of the rows shown.
- Pagination.Seguinte: with no rows, "next" from page 1 goes to page 0. This is modelled as written, but the buttons are hidden then, so no navigation lemma covers it.
- Descontos.SortById: the order among brands with the same id (sort stability) is not stated.
- Descontos.ValorVisual: values are exact reals. Two IEEE-754 doubles in (0, 1] can give the same product after multiplying by 100, so ValorVisualInjectiveOnFractions does not carry over to the floating-point code.
- Database.Step: its own contract states the totals and the streak only; the messages are stated separately by Database.StepMessages.
- Normalization.DropDots: its own contract states contents only; the order of the kept characters is stated by Normalization.DropDotsAppend.
- `carregarMarcas` in the upload section, `MarcaModal`, `SetupPage`, `brands/schneider.ts` and the visual effects are not part of this model. The same goes for the rendering of every component (formatting of prices and dates, icons, animation).
- `getNomeMarca` in `TabelaHistorico.tsx` (lines 91-94) is the same function as in `TabelaComponentes.tsx`. It is modelled once, as Catalogo.GetNomeMarca.
- Edits made to the file list while `processarTodos` runs (its loop reads a snapshot) are not modelled.
