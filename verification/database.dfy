/** `inserirComponentes` (source: src/lib/database.ts): the records are sent
    to the store in consecutive batches of 100. A batch the store rejects as
    a whole is retried record by record; a batch whose call throws counts
    as failed in full. After five failed batches in a row the run stops.
    The store is an oracle: `store(k)` is its answer to the k-th batch,
    counting from 0. Also the offset arithmetic of `listarComponentes`. */
module Database {
  import opened Wrappers
  import opened Text
  import opened JsNumbers
  import opened Types

  /** `BATCH_SIZE`. */
  const BatchSize: nat := 100

  /** `MAX_ERROS_CONSECUTIVOS`. */
  const MaxErrosConsecutivos: nat := 5

  const NenhumComponente: string := "Nenhum componente para inserir"
  const ParadoMapeamento: string := "PARADO: Muitos erros consecutivos. Verifica o mapeamento."
  const Parado: string := "PARADO: Muitos erros consecutivos."

  /** The row the store receives for a record (`dadosLote`). */
  datatype UpsertRow = UpsertRow(
    idmarca: int,
    referencia: string,
    descricao: Option<string>,
    familia: Option<string>,
    ean: Option<string>,
    precoTabela: Option<JsNumber>,
    grupoDesconto: Option<string>,
    unidade: string,
    quantidadeMinima: Option<JsNumber>,
    peso: Option<JsNumber>,
    updatedAt: string)

  /** One record as sent: every field copied, the unit defaulting to "UN"
      when null or empty, stamped with the time `now`. */
  function ToUpsertRow(c: Componente, now: string): (r: UpsertRow)
    ensures r.idmarca == c.idmarca && r.referencia == c.referencia
    ensures r.descricao == c.descricao && r.familia == c.familia && r.ean == c.ean
    ensures r.precoTabela == c.precoTabela && r.grupoDesconto == c.grupoDesconto
    ensures r.quantidadeMinima == c.quantidadeMinima && r.peso == c.peso
    ensures r.unidade == (if c.unidade.Some? && c.unidade.value != "" then c.unidade.value else "UN")
    ensures r.updatedAt == now
    ensures |r.unidade| > 0
  {
    var unidade := if c.unidade.Some? && c.unidade.value != "" then c.unidade.value else "UN";
    UpsertRow(c.idmarca, c.referencia, c.descricao, c.familia, c.ean, c.precoTabela,
              c.grupoDesconto, unidade, c.quantidadeMinima, c.peso, now)
  }

  /** The store's answer to one batch: accepted whole; rejected whole, with
      the record-by-record retry accepting record `j` exactly when
      `j < |accepted| && accepted[j]`; or a thrown error. */
  datatype BatchAnswer = BulkOk | BulkRejected(accepted: seq<bool>) | Thrown(message: string)

  type Store = nat -> BatchAnswer

  /** `totalLotes = Math.ceil(n / BATCH_SIZE)`. */
  function NumBatches(n: nat): (t: nat)
    ensures t * BatchSize >= n && (t == 0 || (t - 1) * BatchSize < n)
  {
    (n + BatchSize - 1) / BatchSize
  }

  /** The length of batch `k`: 100, except possibly the last. */
  function BatchLen(n: nat, k: nat): (len: nat)
    requires k < NumBatches(n)
    ensures 0 < len <= BatchSize && k * BatchSize + len <= n
    ensures k + 1 < NumBatches(n) ==> len == BatchSize
    ensures k + 1 == NumBatches(n) ==> k * BatchSize + len == n
  {
    if n - k * BatchSize < BatchSize then n - k * BatchSize else BatchSize
  }

  /** How many of the first `len` records the retry accepted. */
  function CountAccepted(accepted: seq<bool>, len: nat): (s: nat)
    ensures s <= len
  {
    if len == 0 then 0
    else CountAccepted(accepted, len - 1) + (if len - 1 < |accepted| && accepted[len - 1] then 1 else 0)
  }

  /** Records stored and records lost in one batch. */
  function BatchSuccesses(ans: BatchAnswer, len: nat): (s: nat)
    ensures s <= len
  {
    match ans
    case BulkOk => len
    case BulkRejected(acc) => CountAccepted(acc, len)
    case Thrown(_) => 0
  }

  /** How many of the first `len` records the retry failed to store. */
  function CountRejected(accepted: seq<bool>, len: nat): (e: nat)
    ensures e <= len
  {
    if len == 0 then 0
    else CountRejected(accepted, len - 1) + (if len - 1 < |accepted| && accepted[len - 1] then 0 else 1)
  }

  /** Records lost in one batch: none when accepted whole, those the retry
      failed on when rejected, all of them when the call threw. */
  function BatchErrors(ans: BatchAnswer, len: nat): (e: nat)
    ensures e <= len
    ensures ans.BulkOk? ==> e == 0
    ensures ans.Thrown? ==> e == len
  {
    match ans
    case BulkOk => 0
    case BulkRejected(acc) => CountRejected(acc, len)
    case Thrown(_) => len
  }

  /** The retry sorts every record of the batch into exactly one of its two
      counters. */
  lemma {:induction false} RetryCounts(accepted: seq<bool>, len: nat)
    ensures CountAccepted(accepted, len) + CountRejected(accepted, len) == len
  {
    if len > 0 {
      RetryCounts(accepted, len - 1);
    }
  }

  /** Every record of a batch is counted once, as stored or as lost. */
  lemma BatchAccounting(ans: BatchAnswer, len: nat)
    ensures BatchSuccesses(ans, len) + BatchErrors(ans, len) == len
  {
    if ans.BulkRejected? {
      RetryCounts(ans.accepted, len);
    }
  }

  /** A batch counts as failed when its call threw or when its retry lost a
      record; a rejected batch whose every record the retry saved does not. */
  predicate Failed(ans: BatchAnswer, len: nat) {
    ans.Thrown? || (ans.BulkRejected? && BatchErrors(ans, len) > 0)
  }

  /** The running totals: `result` and `errosConsecutivos`. */
  datatype RunState = RunState(sucesso: nat, erros: nat, mensagens: seq<string>, streak: nat)

  const Start: RunState := RunState(0, 0, [], 0)

  function LoteMsg(lote: nat, s: nat, e: nat): string {
    "Lote " + NatToString(lote) + ": " + NatToString(s) + " ok, " + NatToString(e) + " erros"
  }

  function ErroLoteMsg(lote: nat, msg: string): string {
    "Erro no lote " + NatToString(lote) + ": " + msg
  }

  /** One iteration of the batch loop for batch number `lote` (from 1).
      The totals grow by exactly the batch length; the streak grows by one
      on a failed batch and is reset otherwise; a streak of five appends the
      stop message matching the path taken. */
  function Step(st: RunState, ans: BatchAnswer, lote: nat, len: nat): (r: RunState)
    ensures r.sucesso == st.sucesso + BatchSuccesses(ans, len)
    ensures r.erros == st.erros + BatchErrors(ans, len)
    ensures r.streak == if Failed(ans, len) then st.streak + 1 else 0
  {
    match ans
    case BulkOk =>
      RunState(st.sucesso + len, st.erros, st.mensagens, 0)
    case BulkRejected(acc) =>
      var s := CountAccepted(acc, len);
      var e := CountRejected(acc, len);
      if e > 0 then
        var streak := st.streak + 1;
        var msgs := st.mensagens + [LoteMsg(lote, s, e)];
        RunState(st.sucesso + s, st.erros + e,
                 if streak >= MaxErrosConsecutivos then msgs + [ParadoMapeamento] else msgs, streak)
      else
        RunState(st.sucesso + s, st.erros, st.mensagens, 0)
    case Thrown(msg) =>
      var streak := st.streak + 1;
      var msgs := st.mensagens + [ErroLoteMsg(lote, msg)];
      RunState(st.sucesso, st.erros + len,
               if streak >= MaxErrosConsecutivos then msgs + [Parado] else msgs, streak)
  }

  /** The messages of one iteration: none for a batch that did not fail;
      for a failed batch, its own message ("Erro no lote k: ..." when the
      call threw, "Lote k: s ok, e erros" when the retry lost records),
      followed by the stop message matching that path once the streak
      reaches five. */
  lemma StepMessages(st: RunState, ans: BatchAnswer, lote: nat, len: nat)
    ensures var r := Step(st, ans, lote, len);
            && st.mensagens <= r.mensagens
            && (!Failed(ans, len) ==> r.mensagens == st.mensagens)
            && (Failed(ans, len) ==>
                  |r.mensagens| == |st.mensagens| + (if r.streak >= MaxErrosConsecutivos then 2 else 1)
                  && r.mensagens[|st.mensagens|]
                     == (if ans.Thrown? then ErroLoteMsg(lote, ans.message)
                         else LoteMsg(lote, BatchSuccesses(ans, len), BatchErrors(ans, len))))
            && (r.streak >= MaxErrosConsecutivos ==>
                  r.mensagens[|r.mensagens| - 1] == (if ans.Thrown? then Parado else ParadoMapeamento))
  {
  }

  /** The state after the first `b` batches, when none of them stopped the
      run. */
  function RunUpTo(n: nat, store: Store, b: nat): RunState
    requires b <= NumBatches(n)
  {
    if b == 0 then Start
    else Step(RunUpTo(n, store, b - 1), store(b - 1), b, BatchLen(n, b - 1))
  }

  /** Records covered by the first `b` batches. */
  function Covered(n: nat, b: nat): nat {
    if b * BatchSize < n then b * BatchSize else n
  }

  /** Every record of a processed batch is counted once, as stored or as
      lost. */
  lemma {:induction false} RunAccounting(n: nat, store: Store, b: nat)
    requires b <= NumBatches(n)
    ensures RunUpTo(n, store, b).sucesso + RunUpTo(n, store, b).erros == Covered(n, b)
  {
    if b > 0 {
      RunAccounting(n, store, b - 1);
      BatchAccounting(store(b - 1), BatchLen(n, b - 1));
    }
  }

  /** The streak after `b` batches is at least `j` exactly when the last `j`
      batches all failed. */
  lemma {:induction false} StreakCountsFailures(n: nat, store: Store, b: nat, j: nat)
    requires b <= NumBatches(n)
    ensures RunUpTo(n, store, b).streak >= j
            <==> j <= b && forall k :: b - j <= k < b ==> Failed(store(k), BatchLen(n, k))
  {
    if j > 0 && b > 0 {
      StreakCountsFailures(n, store, b - 1, j - 1);
      if !Failed(store(b - 1), BatchLen(n, b - 1)) {
        assert RunUpTo(n, store, b).streak == 0;
      }
    } else if j > 0 {
      assert RunUpTo(n, store, b).streak == 0;
    }
  }

  /** The number of batches the loop processes when it reaches batch `b`:
      up to and including the first whose streak reaches five, or all. */
  function StopFrom(n: nat, store: Store, b: nat): (r: nat)
    requires 1 <= b <= NumBatches(n)
    ensures b <= r <= NumBatches(n)
    ensures Halts(n, store, r)
    ensures forall k :: b <= k < r ==> !Halts(n, store, k)
    decreases NumBatches(n) - b
  {
    if Halts(n, store, b) then b
    else StopFrom(n, store, b + 1)
  }

  /** After `b` batches the loop ends: all batches are done or the streak
      of failures reached five. */
  predicate Halts(n: nat, store: Store, b: nat)
    requires b <= NumBatches(n)
  {
    b == NumBatches(n) || RunUpTo(n, store, b).streak >= MaxErrosConsecutivos
  }

  /** The number of batches a run over `n` records processes. */
  function Processed(n: nat, store: Store): (b: nat)
    ensures b <= NumBatches(n)
    ensures n > 0 ==> 1 <= b
  {
    if n == 0 then 0 else StopFrom(n, store, 1)
  }

  /** The stop point is the only batch count that reaches a streak of five
      (or the end) without having reached it earlier. */
  lemma StopUnique(n: nat, store: Store, b: nat)
    requires n > 0 && 1 <= b <= NumBatches(n)
    requires forall k :: 1 <= k < b ==> !Halts(n, store, k)
    requires Halts(n, store, b)
    ensures Processed(n, store) == b
  {
  }

  /** The result of `inserirComponentes`, as a function of the records and
      the store's answers. */
  function InsertResult(comps: seq<Componente>, store: Store): (r: ImportResult)
    ensures comps == [] ==> r == ImportResult(0, 0, [NenhumComponente])
    ensures comps != [] ==> r.sucesso + r.erros == Covered(|comps|, Processed(|comps|, store)) <= |comps|
  {
    var n := |comps|;
    if n == 0 then ImportResult(0, 0, [NenhumComponente])
    else
      var b := Processed(n, store);
      RunAccounting(n, store, b);
      var st := RunUpTo(n, store, b);
      ImportResult(st.sucesso, st.erros, st.mensagens)
  }

  /** When every batch is accepted whole, every record is stored, no
      message is produced and no batch is skipped. */
  lemma {:induction false} AllAcceptedRun(n: nat, store: Store, b: nat)
    requires b <= NumBatches(n)
    requires forall k :: store(k) == BulkOk
    ensures RunUpTo(n, store, b) == RunState(Covered(n, b), 0, [], 0)
  {
    if b > 0 {
      AllAcceptedRun(n, store, b - 1);
    }
  }

  lemma AllAccepted(comps: seq<Componente>, store: Store)
    requires comps != []
    requires forall k :: store(k) == BulkOk
    ensures Processed(|comps|, store) == NumBatches(|comps|)
    ensures InsertResult(comps, store) == ImportResult(|comps|, 0, [])
  {
    var n := |comps|;
    forall k | 1 <= k <= NumBatches(n) ensures RunUpTo(n, store, k).streak == 0 {
      AllAcceptedRun(n, store, k);
    }
    StopUnique(n, store, NumBatches(n));
    AllAcceptedRun(n, store, NumBatches(n));
  }

  /** A run that has lost no record has no failure streak. */
  lemma ErrorFreeNoStreak(n: nat, store: Store, b: nat)
    requires b <= NumBatches(n)
    ensures RunUpTo(n, store, b).erros == 0 ==> RunUpTo(n, store, b).streak == 0
  {
  }

  /** A run that reports no lost record processed every batch and stored
      every record. */
  lemma NoErrorsStoresAll(comps: seq<Componente>, store: Store)
    requires comps != [] && InsertResult(comps, store).erros == 0
    ensures Processed(|comps|, store) == NumBatches(|comps|)
    ensures InsertResult(comps, store).sucesso == |comps|
  {
    ErrorFreeNoStreak(|comps|, store, Processed(|comps|, store));
  }

  /** A run that lost every record stored none. */
  lemma AllLostNoneStored(comps: seq<Componente>, store: Store)
    requires InsertResult(comps, store).erros == |comps|
    ensures InsertResult(comps, store).sucesso == 0
  {
  }

  /** What the store receives for batch `k`. */
  function Payload(comps: seq<Componente>, k: nat, now: string): (p: seq<UpsertRow>)
    requires k < NumBatches(|comps|)
    ensures |p| == BatchLen(|comps|, k)
  {
    var len := BatchLen(|comps|, k);
    seq(len, j requires 0 <= j < len => ToUpsertRow(comps[k * BatchSize + j], now))
  }

  /** Batch `k` carries records `100k` onwards, in order, so consecutive
      batches partition the input. */
  lemma PayloadRows(comps: seq<Componente>, k: nat, now: string, j: nat)
    requires k < NumBatches(|comps|) && j < BatchLen(|comps|, k)
    ensures k * BatchSize + j < |comps|
    ensures Payload(comps, k, now)[j] == ToUpsertRow(comps[k * BatchSize + j], now)
  {
  }

  /** The progress report before batch `k`: 80 plus the share of batches
      reached, scaled to 18. */
  function BatchEvent(n: nat, k: nat): (ev: ProcessingStatus)
    requires k < NumBatches(n)
    ensures 80 <= ev.progresso <= 98
    ensures ev.fase == Inserindo && ev.total == Some(n) && ev.atual == Some(k * BatchSize + BatchLen(n, k))
  {
    var t := NumBatches(n);
    ProgressBound(k + 1, t);
    ProcessingStatus(Inserindo, 80 + ((k + 1) * 18) / t,
                     "A inserir lote " + NatToString(k + 1) + " de " + NatToString(t) + "...",
                     Some(n), Some(k * BatchSize + BatchLen(n, k)))
  }

  lemma ProgressBound(lote: nat, t: nat)
    requires 1 <= lote <= t
    ensures 0 <= (lote * 18) / t <= 18
  {
    var x := lote * 18;
    var q := x / t;
    assert t * q + x % t == x && 0 <= x % t;
    assert x <= t * 18;
    if q > 18 {
      MulAtLeast(t, q - 18);
    }
  }

  lemma MulAtLeast(t: nat, d: int)
    requires t >= 1 && d >= 1
    ensures t * d >= t
  {
  }

  /** The payloads of the first `b` batches, in order. */
  function Payloads(comps: seq<Componente>, b: nat, now: string): (ps: seq<seq<UpsertRow>>)
    requires b <= NumBatches(|comps|)
    ensures |ps| == b
    ensures forall k :: 0 <= k < b ==> ps[k] == Payload(comps, k, now)
  {
    if b == 0 then [] else Payloads(comps, b - 1, now) + [Payload(comps, b - 1, now)]
  }

  /** The progress reports of the first `b` batches, in order. */
  function BatchEvents(n: nat, b: nat): (evs: seq<ProcessingStatus>)
    requires b <= NumBatches(n)
    ensures |evs| == b
    ensures forall k :: 0 <= k < b ==> evs[k] == BatchEvent(n, k)
  {
    if b == 0 then [] else BatchEvents(n, b - 1) + [BatchEvent(n, b - 1)]
  }

  /** The report after the loop. */
  function FinalEvent(n: nat, st: RunState): (ev: ProcessingStatus)
    ensures ev.fase == Concluido && ev.progresso == 100
    ensures ev.total == Some(n) && ev.atual == Some(n)
  {
    ProcessingStatus(Concluido, 100,
                     "Concluído! " + NatToString(st.sucesso) + " inseridos, " + NatToString(st.erros) + " erros",
                     Some(n), Some(n))
  }

  /** `inserirComponentes(client, componentes, onProgress)`. Returns the
      result, the payloads sent (one per batch processed) and the progress
      reports. */
  method InserirComponentes(comps: seq<Componente>, store: Store, now: string)
    returns (result: ImportResult, lotes: seq<seq<UpsertRow>>, eventos: seq<ProcessingStatus>)
    ensures comps == [] ==> result == ImportResult(0, 0, [NenhumComponente]) && lotes == [] && eventos == []
    ensures result == InsertResult(comps, store)
    ensures |lotes| == Processed(|comps|, store) <= NumBatches(|comps|)
    ensures comps != [] ==>
              1 <= |lotes|
              && result.sucesso + result.erros == Covered(|comps|, |lotes|)
              && result.sucesso + result.erros <= |comps|
    ensures comps != [] ==>
              var st := RunUpTo(|comps|, store, |lotes|);
              result == ImportResult(st.sucesso, st.erros, st.mensagens)
    ensures forall k :: 1 <= k < |lotes| ==> RunUpTo(|comps|, store, k).streak < MaxErrosConsecutivos
    ensures |lotes| == NumBatches(|comps|) || RunUpTo(|comps|, store, |lotes|).streak >= MaxErrosConsecutivos
    ensures forall k :: 0 <= k < |lotes| ==> lotes[k] == Payload(comps, k, now)
    ensures comps != [] ==> |eventos| == |lotes| + 1
    ensures comps != [] ==> forall k :: 0 <= k < |lotes| ==> eventos[k] == BatchEvent(|comps|, k)
    ensures comps != [] ==> eventos[|lotes|].fase == Concluido && eventos[|lotes|].progresso == 100
  {
    var n := |comps|;
    lotes := [];
    eventos := [];
    if n == 0 {
      result := ImportResult(0, 0, [NenhumComponente]);
      return;
    }
    var total := NumBatches(n);
    var st := Start;
    var b := 0;
    var parado := false;
    while b * BatchSize < n && !parado
      invariant b <= total
      invariant st == RunUpTo(n, store, b)
      invariant lotes == Payloads(comps, b, now)
      invariant eventos == BatchEvents(n, b)
      invariant NoHaltBefore(n, store, b)
      invariant parado <==> b > 0 && st.streak >= MaxErrosConsecutivos
      decreases n - b * BatchSize
    {
      NoHaltExtend(n, store, b);
      eventos := eventos + [BatchEvent(n, b)];
      lotes := lotes + [Payload(comps, b, now)];
      st := Step(st, store(b), b + 1, BatchLen(n, b));
      b := b + 1;
      parado := st.streak >= MaxErrosConsecutivos;
    }
    HaltsAtExit(n, store, b);
    RunAccounting(n, store, b);
    StopUnique(n, store, b);
    result := ImportResult(st.sucesso, st.erros, st.mensagens);
    eventos := eventos + [FinalEvent(n, st)];
  }

  /** No batch before the `b`-th ended a streak of five failures. */
  predicate NoHaltBefore(n: nat, store: Store, b: nat) {
    forall k :: 1 <= k < b && k <= NumBatches(n) ==> RunUpTo(n, store, k).streak < MaxErrosConsecutivos
  }

  lemma NoHaltExtend(n: nat, store: Store, b: nat)
    requires b < NumBatches(n) && NoHaltBefore(n, store, b)
    requires b == 0 || RunUpTo(n, store, b).streak < MaxErrosConsecutivos
    ensures NoHaltBefore(n, store, b + 1)
  {
    forall k | 1 <= k < b + 1 && k <= NumBatches(n)
      ensures RunUpTo(n, store, k).streak < MaxErrosConsecutivos
    {
      if k < b {
        assert 1 <= k < b && k <= NumBatches(n);
      }
    }
  }

  /** Where the loop stops, the run halts, and it did not halt earlier. */
  lemma HaltsAtExit(n: nat, store: Store, b: nat)
    requires 1 <= b <= NumBatches(n) && NoHaltBefore(n, store, b)
    requires b * BatchSize >= n || RunUpTo(n, store, b).streak >= MaxErrosConsecutivos
    ensures forall k :: 1 <= k < b ==> !Halts(n, store, k)
    ensures Halts(n, store, b)
  {
  }

  /** Once all batches are processed, every record has been counted. */
  lemma AllBatchesCoverAll(n: nat)
    ensures Covered(n, NumBatches(n)) == n
  {
  }

  /** A rejected batch of 100 whose retry saves 97 records counts 97 stored
      and 3 lost, and starts a streak. */
  lemma RetryExample(st: RunState)
    requires st.streak == 0
    ensures var acc := seq(100, j => j < 97);
            var r := Step(st, BulkRejected(acc), 1, 100);
            r.sucesso == st.sucesso + 97 && r.erros == st.erros + 3 && r.streak == 1
  {
    var acc := seq(100, j => j < 97);
    CountPrefix(acc, 97, 100);
    RetryCounts(acc, 100);
  }

  lemma {:induction false} CountPrefix(acc: seq<bool>, m: nat, len: nat)
    requires m <= len <= |acc|
    requires forall j :: 0 <= j < |acc| ==> acc[j] == (j < m)
    ensures CountAccepted(acc, len) == m
  {
    if len > m {
      CountPrefix(acc, m, len - 1);
    } else if len > 0 {
      CountAll(acc, len);
    }
  }

  lemma {:induction false} CountAll(acc: seq<bool>, len: nat)
    requires len <= |acc|
    requires forall j :: 0 <= j < len ==> acc[j]
    ensures CountAccepted(acc, len) == len
  {
    if len > 0 {
      CountAll(acc, len - 1);
    }
  }

  /** `listarComponentes`: the inclusive row range requested for page
      `pagina` of `porPagina` rows. */
  function RequestRange(pagina: int, porPagina: int): (r: (int, int))
    ensures r.1 - r.0 + 1 == porPagina
  {
    var offset := (pagina - 1) * porPagina;
    (offset, offset + porPagina - 1)
  }

  /** Consecutive pages request adjacent ranges, and page 1 starts at row 0. */
  lemma PagesTile(pagina: int, porPagina: int)
    ensures RequestRange(pagina + 1, porPagina).0 == RequestRange(pagina, porPagina).1 + 1
    ensures RequestRange(1, porPagina).0 == 0
  {
    assert (pagina + 1 - 1) * porPagina == (pagina - 1) * porPagina + porPagina;
  }
}
